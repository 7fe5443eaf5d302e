/**
 * The three conversions of a list of Markdown sources: into one CSV table,
 * into a workbook with one sheet per source, and into a remote spreadsheet
 * made by a creator service. The extractor is a parameter, since the
 * converters receive it through an interface; `Extract` is what the model's
 * own extractor computes.
 */
module Converter {
  import opened Results
  import opened Text
  import opened Domain
  import opened SheetNames
  import opened Workbook
  import CaseParser

  // ---------------------------------------------------------------------------
  // Rows
  // ---------------------------------------------------------------------------

  /** The header row of every table. */
  const Header: seq<string> :=
    ["Major Item", "Medium Item", "Minor Item", "Validation Steps", "Checkpoints", "Result", "Test Date", "Tester", "Notes"]

  /**
   * `caseRow`: the three items, the steps and the checkpoints each joined
   * with line feeds, and four empty columns to be filled in by hand.
   */
  function CaseRow(c: Case): (row: seq<string>)
    ensures |row| == |Header|
    ensures forall k :: 5 <= k < |row| ==> row[k] == ""
  {
    [c.majorItem, c.mediumItem, c.minorItem, Join(c.validationSteps, "\n"), Join(c.checkpoints, "\n"), "", "", "", ""]
  }

  /** A joined list read back: nothing for the empty cell, otherwise the pieces between line feeds. */
  function SplitItems(s: string): seq<string> {
    if s == "" then [] else SplitLines(s)
  }

  /** The case a row describes. */
  function ReadRow(row: seq<string>): Case
    requires |row| >= 5
  {
    Case(row[0], row[1], row[2], SplitItems(row[3]), SplitItems(row[4]))
  }

  /** Items free of line feeds that are not a single empty item survive joining and splitting. */
  predicate Joinable(items: seq<string>) {
    items != [""] && forall k :: 0 <= k < |items| ==> '\n' !in items[k]
  }

  lemma SplitItemsJoin(items: seq<string>)
    requires Joinable(items)
    ensures SplitItems(Join(items, "\n")) == items
  {
    if |items| == 1 {
      SplitNoNewline(items[0]);
    } else if |items| > 1 {
      SplitJoin(items);
      assert Join(items, "\n") == items[0] + "\n" + Join(items[1..], "\n");
    }
  }

  /** A row reads back as the case it was made from, whenever its lists can be joined and split. */
  lemma CaseRowReadsBack(c: Case)
    requires Joinable(c.validationSteps) && Joinable(c.checkpoints)
    ensures ReadRow(CaseRow(c)) == c
  {
    SplitItemsJoin(c.validationSteps);
    SplitItemsJoin(c.checkpoints);
  }

  /** The rows of a list of cases, one per case in order. */
  function CaseRows(cases: seq<Case>): (rows: seq<seq<string>>)
    ensures |rows| == |cases|
    ensures forall k :: 0 <= k < |cases| ==> rows[k] == CaseRow(cases[k])
  {
    if cases == [] then [] else CaseRows(cases[..|cases| - 1]) + [CaseRow(cases[|cases| - 1])]
  }

  // ---------------------------------------------------------------------------
  // Sources and the extractor
  // ---------------------------------------------------------------------------

  /** A Markdown document and the name its sheet is derived from. */
  datatype Source = Source(name: string, input: Stream)

  /** What an extractor does with one input: the cases, or the failure that ended reading. */
  type Parser = Stream -> Result<seq<Case>, ReadError>

  /** The result `CaseParser.Parse` is proved to return. */
  function Extract(input: Stream): Result<seq<Case>, ReadError> {
    if input.failure.Some? then Err(input.failure.value) else Ok(CaseParser.Expected(input.lines))
  }

  datatype ConvertError =
    | NoSources
    | EmptyTitle
    | HeaderWriteFailed
    | RowWriteFailed
    | FlushFailed
    | ParseFailed(source: string, readError: ReadError)
    | WorkbookFailed(zipError: ZipError)
    | CreateFailed(reason: string)

  /** How many sources in front parse; the next one, if any, does not. */
  function ParsedPrefix(parse: Parser, sources: seq<Source>): (n: nat)
    ensures n <= |sources|
    ensures forall k :: 0 <= k < n ==> parse(sources[k].input).Ok?
    ensures n < |sources| ==> parse(sources[n].input).Err?
  {
    if sources == [] || parse(sources[0].input).Err? then 0
    else 1 + ParsedPrefix(parse, sources[1..])
  }

  predicate AllParse(parse: Parser, sources: seq<Source>) {
    forall k :: 0 <= k < |sources| ==> parse(sources[k].input).Ok?
  }

  /** The case rows of all sources, source after source. */
  function SourceRows(parse: Parser, sources: seq<Source>): seq<seq<string>>
    requires AllParse(parse, sources)
  {
    if sources == [] then []
    else SourceRows(parse, sources[..|sources| - 1]) + CaseRows(parse(sources[|sources| - 1].input).value)
  }

  /** The rows of one more source follow those of the sources before it. */
  lemma SourceRowsNext(parse: Parser, sources: seq<Source>, i: nat)
    requires i < |sources| && AllParse(parse, sources[..i + 1])
    ensures AllParse(parse, sources[..i])
    ensures SourceRows(parse, sources[..i + 1]) == SourceRows(parse, sources[..i]) + CaseRows(parse(sources[i].input).value)
  {
    assert sources[..i + 1][..i] == sources[..i];
    assert forall k :: 0 <= k < i ==> sources[..i][k] == sources[..i + 1][k];
  }

  /** The rows of the first `j` sources begin the rows of the first `n`. */
  lemma {:induction false} SourceRowsPrefix(parse: Parser, sources: seq<Source>, j: nat, n: nat)
    requires j <= n <= |sources| && AllParse(parse, sources[..n])
    ensures AllParse(parse, sources[..j])
    ensures var r := SourceRows(parse, sources[..j]);
      |r| <= |SourceRows(parse, sources[..n])| && SourceRows(parse, sources[..n])[..|r|] == r
    decreases n - j
  {
    if j == n {
      var r := SourceRows(parse, sources[..j]);
      assert r[..|r|] == r;
    } else {
      SourceRowsNext(parse, sources, n - 1);
      SourceRowsPrefix(parse, sources, j, n - 1);
    }
  }

  /** When every source parses, the sources parsed in front are all of them. */
  lemma {:induction false} AllParsed(parse: Parser, sources: seq<Source>)
    requires AllParse(parse, sources)
    ensures ParsedPrefix(parse, sources) == |sources|
  {
    if sources != [] {
      assert parse(sources[0].input).Ok?;
      assert forall k :: 0 <= k < |sources| - 1 ==> sources[1..][k] == sources[k + 1];
      AllParsed(parse, sources[1..]);
    }
  }

  /** There are as many case rows as cases over all sources. */
  lemma {:induction false} SourceRowsCount(parse: Parser, sources: seq<Source>)
    requires AllParse(parse, sources)
    ensures |SourceRows(parse, sources)| == TotalCases(parse, sources)
  {
    if sources != [] {
      SourceRowsCount(parse, sources[..|sources| - 1]);
    }
  }

  function TotalCases(parse: Parser, sources: seq<Source>): nat
    requires AllParse(parse, sources)
  {
    if sources == [] then 0
    else TotalCases(parse, sources[..|sources| - 1]) + |parse(sources[|sources| - 1].input).value|
  }

  // ---------------------------------------------------------------------------
  // MarkdownToCSV
  // ---------------------------------------------------------------------------

  /**
   * The record writer over the output: the records it has taken, whether it
   * has been flushed, how many records the output takes before a write fails
   * (none when it takes any number), and whether flushing reports an error.
   */
  class CsvSink {
    var records: seq<seq<string>>
    var flushed: bool
    const capacity: Option<nat>
    const flushFails: bool

    constructor (capacity: Option<nat>, flushFails: bool)
      ensures records == [] && !flushed
      ensures this.capacity == capacity && this.flushFails == flushFails
    {
      records := [];
      flushed := false;
      this.capacity := capacity;
      this.flushFails := flushFails;
    }

    predicate Full()
      reads this
    {
      capacity.Some? && |records| >= capacity.value
    }

    /** `writer.Write`: takes the record unless the output is full. */
    method Write(record: seq<string>) returns (failed: bool)
      modifies this
      ensures failed == old(Full())
      ensures records == if failed then old(records) else old(records) + [record]
      ensures flushed == old(flushed)
    {
      failed := Full();
      if !failed {
        records := records + [record];
      }
    }

    /** `writer.Flush`. */
    method Flush()
      modifies this
      ensures flushed && records == old(records)
    {
      flushed := true;
    }
  }

  /** How many of `n` records an output of the given capacity takes after `before` records. */
  function Accepted(capacity: Option<nat>, before: nat, n: nat): (k: nat)
    ensures k <= n
  {
    if capacity.None? || before + n <= capacity.value then n
    else if before >= capacity.value then 0
    else capacity.value - before
  }

  /** All of the first `m` records are taken, and the output is full after them or there are no more: exactly `m` of the `n` are taken. */
  lemma AcceptedStops(capacity: Option<nat>, before: nat, m: nat, n: nat)
    requires m <= n && Accepted(capacity, before, m) == m
    requires m == n || (capacity.Some? && before + m >= capacity.value)
    ensures Accepted(capacity, before, n) == m
  {
  }

  /** Taking one more record after `m` taken ones keeps all of them taken. */
  lemma AcceptedNext(capacity: Option<nat>, before: nat, m: nat)
    requires Accepted(capacity, before, m) == m
    requires !(capacity.Some? && before + m >= capacity.value)
    ensures Accepted(capacity, before, m + 1) == m + 1
  {
  }

  /** The records `Convert` sends: the header, then the rows of every source before the first that fails to parse. */
  function CsvRecords(parse: Parser, sources: seq<Source>): (recs: seq<seq<string>>)
    ensures |recs| >= 1 && recs[0] == Header
  {
    var p := ParsedPrefix(parse, sources);
    [Header] + SourceRows(parse, sources[..p])
  }

  /** When every source parses, the table holds the header and one row per case. */
  lemma CsvRecordsCount(parse: Parser, sources: seq<Source>)
    requires AllParse(parse, sources)
    ensures |CsvRecords(parse, sources)| == 1 + TotalCases(parse, sources)
  {
    AllParsed(parse, sources);
    assert sources[..|sources|] == sources;
    SourceRowsCount(parse, sources);
  }

  /** The error that ends a run in which every record was taken. */
  function CsvEnd(parse: Parser, sources: seq<Source>, flushFails: bool): Option<ConvertError> {
    var p := ParsedPrefix(parse, sources);
    if p < |sources| then Some(ParseFailed(sources[p].name, parse(sources[p].input).error))
    else if flushFails then Some(FlushFailed)
    else None
  }

  /**
   * The outcome of `Convert` on a writer that held `before` and had been
   * flushed or not: with no sources nothing is written; otherwise the
   * records are sent in order until the output is full. A refused header
   * ends the run unflushed, a refused row ends it flushed, and when every
   * record is taken the run ends with the first parse failure, or with the
   * result of the final flush.
   */
  ghost predicate CsvRun(parse: Parser, sources: seq<Source>, capacity: Option<nat>, flushFails: bool,
                         before: seq<seq<string>>, wasFlushed: bool,
                         after: seq<seq<string>>, flushed: bool, err: Option<ConvertError>)
  {
    if sources == [] then err == Some(NoSources) && after == before && flushed == wasFlushed
    else
      var recs := CsvRecords(parse, sources);
      var k := Accepted(capacity, |before|, |recs|);
      && after == before + recs[..k]
      && if k == 0 then err == Some(HeaderWriteFailed) && flushed == wasFlushed
         else if k < |recs| then err == Some(RowWriteFailed) && flushed
         else err == CsvEnd(parse, sources, flushFails) && flushed
  }

  /** `MarkdownToCSV.Convert`. */
  method ConvertCsv(parse: Parser, sources: seq<Source>, out: CsvSink) returns (err: Option<ConvertError>)
    modifies out
    ensures CsvRun(parse, sources, out.capacity, out.flushFails, old(out.records), old(out.flushed), out.records, out.flushed, err)
  {
    if |sources| == 0 {
      return Some(NoSources);
    }
    ghost var before := out.records;
    var failed := out.Write(Header);
    if failed {
      HeaderStop(parse, sources, out.capacity, out.flushFails, before, out.flushed);
      return Some(HeaderWriteFailed);
    }
    AcceptedNext(out.capacity, |before|, 0);
    for i := 0 to |sources|
      invariant i <= ParsedPrefix(parse, sources)
      invariant Sent(parse, sources, i, before, out.records, out.capacity)
      invariant out.flushed == old(out.flushed)
    {
      var parsed := parse(sources[i].input);
      if parsed.Err? {
        out.Flush();
        ParseStop(parse, sources, i, out.capacity, out.flushFails, before, old(out.flushed), out.records);
        return Some(ParseFailed(sources[i].name, parsed.error));
      }
      ghost var mid := out.records;
      failed := WriteRows(out, parsed.value);
      if failed {
        RowStop(parse, sources, i, out.capacity, out.flushFails, before, old(out.flushed), mid, out.records);
        return Some(RowWriteFailed);
      }
      SentNext(parse, sources, i, before, mid, out.records, out.capacity);
    }
    out.Flush();
    EndStop(parse, sources, out.capacity, out.flushFails, before, old(out.flushed), out.records);
    if out.flushFails {
      return Some(FlushFailed);
    }
    return None;
  }

  /** After `i` sources the writer holds the header and their rows, all of them taken. */
  ghost predicate Sent(parse: Parser, sources: seq<Source>, i: nat, before: seq<seq<string>>,
                       records: seq<seq<string>>, capacity: Option<nat>)
  {
    && i <= |sources| && AllParse(parse, sources[..i])
    && records == before + [Header] + SourceRows(parse, sources[..i])
    && Accepted(capacity, |before|, |records| - |before|) == |records| - |before|
  }

  lemma PrefixParses(parse: Parser, sources: seq<Source>, i: nat)
    requires i <= ParsedPrefix(parse, sources)
    ensures AllParse(parse, sources[..i])
  {
    assert forall k :: 0 <= k < i ==> sources[..i][k] == sources[k];
  }

  /** The records sent so far, followed by the rows of a source that parses, are the first ones of the run. */
  lemma SentIsPrefix(parse: Parser, sources: seq<Source>, i: nat, before: seq<seq<string>>, records: seq<seq<string>>,
                     capacity: Option<nat>)
    requires i < ParsedPrefix(parse, sources) && Sent(parse, sources, i, before, records, capacity)
    ensures var rows := CaseRows(parse(sources[i].input).value);
      var m := |records| - |before| + |rows|;
      m <= |CsvRecords(parse, sources)| && records + rows == before + CsvRecords(parse, sources)[..m]
  {
    var p := ParsedPrefix(parse, sources);
    PrefixParses(parse, sources, p);
    SourceRowsPrefix(parse, sources, i + 1, p);
    SourceRowsNext(parse, sources, i);
    Splice(before, records, CaseRows(parse(sources[i].input).value), Header,
           SourceRows(parse, sources[..i]), SourceRows(parse, sources[..p]));
  }

  /** Sequence algebra for `SentIsPrefix`. */
  lemma Splice(before: seq<seq<string>>, records: seq<seq<string>>, rows: seq<seq<string>>, h: seq<string>,
               sent: seq<seq<string>>, all: seq<seq<string>>)
    requires records == before + [h] + sent
    requires |sent + rows| <= |all| && all[..|sent + rows|] == sent + rows
    ensures var m := |records| - |before| + |rows|;
      m <= |[h] + all| && records + rows == before + ([h] + all)[..m]
  {
    var m := |records| - |before| + |rows|;
    assert ([h] + all)[..m] == [h] + all[..|sent + rows|];
  }

  lemma SentNext(parse: Parser, sources: seq<Source>, i: nat, before: seq<seq<string>>,
                 mid: seq<seq<string>>, records: seq<seq<string>>, capacity: Option<nat>)
    requires i < ParsedPrefix(parse, sources) && Sent(parse, sources, i, before, mid, capacity)
    requires var rows := CaseRows(parse(sources[i].input).value);
      Accepted(capacity, |mid|, |rows|) == |rows| && records == mid + rows
    ensures Sent(parse, sources, i + 1, before, records, capacity)
  {
    var rows := CaseRows(parse(sources[i].input).value);
    PrefixParses(parse, sources, i + 1);
    SourceRowsNext(parse, sources, i);
    AcceptedJoin(capacity, |before|, |mid| - |before|, |rows|);
    Regroup(before, Header, SourceRows(parse, sources[..i]), rows);
  }

  lemma Regroup(before: seq<seq<string>>, h: seq<string>, sent: seq<seq<string>>, rows: seq<seq<string>>)
    ensures before + [h] + sent + rows == before + [h] + (sent + rows)
  {
  }

  /** Taking `a` records and then `b` more is taking `a + b`. */
  lemma AcceptedJoin(capacity: Option<nat>, before: nat, a: nat, b: nat)
    requires Accepted(capacity, before, a) == a && Accepted(capacity, before + a, b) == b
    ensures Accepted(capacity, before, a + b) == a + b
  {
  }

  /** A refused header ends the run. */
  lemma HeaderStop(parse: Parser, sources: seq<Source>, capacity: Option<nat>, flushFails: bool,
                   before: seq<seq<string>>, wasFlushed: bool)
    requires sources != [] && capacity.Some? && |before| >= capacity.value
    ensures CsvRun(parse, sources, capacity, flushFails, before, wasFlushed, before, wasFlushed, Some(HeaderWriteFailed))
  {
    var recs := CsvRecords(parse, sources);
    AcceptedStops(capacity, |before|, 0, |recs|);
    assert recs[..0] == [];
  }

  /** A source that fails to parse ends the run after every earlier record was taken. */
  lemma ParseStop(parse: Parser, sources: seq<Source>, i: nat, capacity: Option<nat>, flushFails: bool,
                  before: seq<seq<string>>, wasFlushed: bool, records: seq<seq<string>>)
    requires i < |sources| && i <= ParsedPrefix(parse, sources) && parse(sources[i].input).Err?
    requires Sent(parse, sources, i, before, records, capacity)
    ensures CsvRun(parse, sources, capacity, flushFails, before, wasFlushed, records, true,
                   Some(ParseFailed(sources[i].name, parse(sources[i].input).error)))
  {
    assert ParsedPrefix(parse, sources) == i;
    AllTaken(parse, sources, capacity, flushFails, before, wasFlushed, records);
  }

  /** When all sources are written, the run ends with the result of the flush. */
  lemma EndStop(parse: Parser, sources: seq<Source>, capacity: Option<nat>, flushFails: bool,
                before: seq<seq<string>>, wasFlushed: bool, records: seq<seq<string>>)
    requires sources != [] && |sources| <= ParsedPrefix(parse, sources)
    requires Sent(parse, sources, |sources|, before, records, capacity)
    ensures CsvRun(parse, sources, capacity, flushFails, before, wasFlushed, records, true,
                   if flushFails then Some(FlushFailed) else None)
  {
    AllTaken(parse, sources, capacity, flushFails, before, wasFlushed, records);
  }

  /** When the records sent are all of the run's, it ends as `CsvEnd` says. */
  lemma AllTaken(parse: Parser, sources: seq<Source>, capacity: Option<nat>, flushFails: bool,
                 before: seq<seq<string>>, wasFlushed: bool, records: seq<seq<string>>)
    requires sources != [] && Sent(parse, sources, ParsedPrefix(parse, sources), before, records, capacity)
    ensures CsvRun(parse, sources, capacity, flushFails, before, wasFlushed, records, true, CsvEnd(parse, sources, flushFails))
  {
    var recs := CsvRecords(parse, sources);
    assert records == before + recs;
    assert recs[..|recs|] == recs;
  }

  /** A refused row ends the run. */
  lemma RowStop(parse: Parser, sources: seq<Source>, i: nat, capacity: Option<nat>, flushFails: bool,
                before: seq<seq<string>>, wasFlushed: bool, mid: seq<seq<string>>, records: seq<seq<string>>)
    requires i < ParsedPrefix(parse, sources) && Sent(parse, sources, i, before, mid, capacity)
    requires var rows := CaseRows(parse(sources[i].input).value);
      var k := Accepted(capacity, |mid|, |rows|);
      k < |rows| && records == mid + rows[..k]
    ensures CsvRun(parse, sources, capacity, flushFails, before, wasFlushed, records, true, Some(RowWriteFailed))
  {
    var rows := CaseRows(parse(sources[i].input).value);
    var j := Accepted(capacity, |mid|, |rows|);
    var m := |mid| - |before|;
    var recs := CsvRecords(parse, sources);
    SentIsPrefix(parse, sources, i, before, mid, capacity);
    AcceptedJoin(capacity, |before|, m, j);
    AcceptedStops(capacity, |before|, m + j, |recs|);
    assert records == (mid + rows)[..|mid| + j];
    assert (before + recs[..m + |rows|])[..|mid| + j] == before + recs[..m + j];
  }

  /**
   * The row loop of `Convert` for one source: writes the row of each case;
   * when the output refuses one, flushes and reports the failure.
   */
  method WriteRows(out: CsvSink, cases: seq<Case>) returns (failed: bool)
    modifies out
    ensures var rows := CaseRows(cases); var k := Accepted(out.capacity, |old(out.records)|, |rows|);
      && out.records == old(out.records) + rows[..k]
      && failed == (k < |rows|)
      && out.flushed == (old(out.flushed) || failed)
  {
    ghost var start := out.records;
    ghost var rows := CaseRows(cases);
    for j := 0 to |cases|
      invariant out.records == start + rows[..j]
      invariant Accepted(out.capacity, |start|, j) == j
      invariant out.flushed == old(out.flushed)
    {
      failed := out.Write(CaseRow(cases[j]));
      if failed {
        AcceptedStops(out.capacity, |start|, j, |rows|);
        out.Flush();
        return;
      }
      AcceptedNext(out.capacity, |start|, j);
      WroteRow(start, rows, j, CaseRow(cases[j]));
    }
    assert rows[..|cases|] == rows;
    return false;
  }

  lemma WroteRow(start: seq<seq<string>>, rows: seq<seq<string>>, j: nat, row: seq<string>)
    requires j < |rows| && rows[j] == row
    ensures start + rows[..j] + [row] == start + rows[..j + 1]
  {
    assert rows[..j + 1] == rows[..j] + [row];
  }

  // ---------------------------------------------------------------------------
  // Sheet names over a conversion
  // ---------------------------------------------------------------------------

  /** The base name `deriveSheetName` gives each source by position. */
  function Bases(sources: seq<Source>): seq<string> {
    seq(|sources|, k requires 0 <= k < |sources| => DeriveSheetName(sources[k].name, k))
  }

  /**
   * The registry after registering `bases` in order from an empty one: the
   * names given out, the counters and the set of names.
   */
  function Registered(bases: seq<string>): (res: (seq<string>, map<string, int>, set<string>))
    ensures |res.0| == |bases|
  {
    if bases == [] then ([], map[], {})
    else
      var prev := Registered(bases[..|bases| - 1]);
      var step := Register(prev.1, prev.2, bases[|bases| - 1]);
      (prev.0 + [step.0], step.1, step.2)
  }

  /** The names registered for a prefix of the bases are a prefix of the names. */
  lemma {:induction false} RegisteredPrefix(bases: seq<string>, i: nat)
    requires i <= |bases|
    ensures Registered(bases[..i]).0 == Registered(bases).0[..i]
    decreases |bases|
  {
    if i < |bases| {
      var init := bases[..|bases| - 1];
      assert bases[..i] == init[..i];
      RegisteredPrefix(init, i);
    } else {
      assert bases[..i] == bases;
    }
  }

  /** The set of names given out is the set of names in the list. */
  lemma {:induction false} RegisteredSet(bases: seq<string>)
    ensures forall x :: x in Registered(bases).2 <==> x in Registered(bases).0
  {
    if bases != [] {
      RegisteredSet(bases[..|bases| - 1]);
    }
  }

  /** The last registration follows from the registry of the bases before it. */
  lemma RegisteredLast(bases: seq<string>)
    requires bases != []
    ensures var prev := Registered(bases[..|bases| - 1]); var next := Registered(bases);
      Registers(prev.1, prev.2, bases[|bases| - 1], next.0[|bases| - 1], next.1, next.2)
  {
    var prev := Registered(bases[..|bases| - 1]);
    var step := Register(prev.1, prev.2, bases[|bases| - 1]);
    assert Registered(bases) == (prev.0 + [step.0], step.1, step.2);
  }

  /** Registering base `k` starts from the registry of the bases before it and gives name `k`. */
  lemma RegisteredStep(bases: seq<string>, k: nat)
    requires k < |bases|
    ensures var prev := Registered(bases[..k]); var next := Registered(bases[..k + 1]);
      Registers(prev.1, prev.2, bases[k], Registered(bases).0[k], next.1, next.2)
  {
    var front := bases[..k + 1];
    assert front[..|front| - 1] == bases[..k] && front[|front| - 1] == bases[k];
    RegisteredLast(front);
    RegisteredPrefix(bases, k + 1);
    assert Registered(front).0[k] == Registered(bases).0[..k + 1][k];
  }

  /** The registry object follows `Registered` one base at a time. */
  lemma RegistryStep(bases: seq<string>, i: nat, name: string, u: map<string, int>, f: set<string>)
    requires i < |bases|
    requires Registers(Registered(bases[..i]).1, Registered(bases[..i]).2, bases[i], name, u, f)
    ensures u == Registered(bases[..i + 1]).1 && f == Registered(bases[..i + 1]).2
    ensures name == Registered(bases).0[i]
  {
    var prev := Registered(bases[..i]);
    var next := Registered(bases[..i + 1]);
    RegisteredStep(bases, i);
    RegistersDeterministic(prev.1, prev.2, bases[i], name, u, f, Registered(bases).0[i], next.1, next.2);
  }

  /**
   * Name `k` is new: it is the base when no earlier name is the base, and a
   * suffixed form of the base otherwise.
   */
  lemma RegisteredName(bases: seq<string>, k: nat)
    requires k < |bases|
    ensures var names := Registered(bases).0;
      && names[k] !in names[..k]
      && (names[k] == bases[k] <==> bases[k] !in names[..k])
      && (bases[k] in names[..k] ==> exists c :: names[k] == SuffixedName(bases[k], c))
  {
    var names := Registered(bases).0;
    var prev := Registered(bases[..k]);
    RegisteredStep(bases, k);
    RegisteredSet(bases[..k]);
    RegisteredPrefix(bases, k);
    RegistersFreshName(prev.1, prev.2, bases[k], names[k], Registered(bases[..k + 1]).1, Registered(bases[..k + 1]).2);
  }

  /** No two sheets of a conversion get the same name. */
  lemma RegisteredDistinct(bases: seq<string>)
    ensures var names := Registered(bases).0;
      forall k, m :: 0 <= k < m < |names| ==> names[k] != names[m]
  {
    var names := Registered(bases).0;
    forall k, m | 0 <= k < m < |names|
      ensures names[k] != names[m]
    {
      RegisteredName(bases, m);
      assert names[k] == names[..m][k];
    }
  }

  /** Registering the bases in order keeps the registry numbered and gives out one name per base. */
  lemma {:induction false} RegisteredNumbered(bases: seq<string>)
    ensures Numbered(Registered(bases).1, Registered(bases).2)
    ensures |Registered(bases).2| == |bases|
  {
    if bases != [] {
      var prev := Registered(bases[..|bases| - 1]);
      var next := Registered(bases);
      RegisteredNumbered(bases[..|bases| - 1]);
      RegisteredLast(bases);
      RegistersNumbered(prev.1, prev.2, bases[|bases| - 1], next.0[|bases| - 1], next.1, next.2);
      RegistersFreshName(prev.1, prev.2, bases[|bases| - 1], next.0[|bases| - 1], next.1, next.2);
    }
  }

  /**
   * Every name a conversion gives out is a legal sheet name: at most 31
   * characters and none of `* : ? [ ] / \`. This holds while the source
   * count has at most 26 digits; a Go `int` has at most 19.
   */
  lemma RegisteredLegal(sources: seq<Source>, k: nat)
    requires k < |sources| && |FormatInt(|sources| + 1)| <= 26
    ensures IsLegalSheetName(Registered(Bases(sources)).0[k])
  {
    var bases := Bases(sources);
    var names := Registered(bases).0;
    var prev := Registered(bases[..k]);
    var next := Registered(bases[..k + 1]);
    RegisteredNumbered(bases[..k]);
    RegisteredStep(bases, k);
    RegistersNumbered(prev.1, prev.2, bases[k], names[k], next.1, next.2);
    FormatIntLengthMonotone(k + 1, |sources| + 1);
    DerivedNameIsLegal(sources[k].name, k);
    if names[k] != bases[k] {
      var c :| 1 <= c <= k + 2 && names[k] == SuffixedName(bases[k], c);
      FormatIntLengthMonotone(c, |sources| + 1);
      SuffixedNameLegal(bases[k], c);
    }
  }

  // ---------------------------------------------------------------------------
  // Sheets
  // ---------------------------------------------------------------------------

  /** The sheet of source `k`: its registered name, the header and one row per case. */
  function SheetAt(parse: Parser, sources: seq<Source>, k: nat): Sheet
    requires k < |sources| && parse(sources[k].input).Ok?
  {
    Sheet(Registered(Bases(sources)).0[k], [Header] + CaseRows(parse(sources[k].input).value))
  }

  /** The sheets of a conversion in which every source parses. */
  function SheetsFor(parse: Parser, sources: seq<Source>): seq<Sheet>
    requires AllParse(parse, sources)
  {
    seq(|sources|, k requires 0 <= k < |sources| => SheetAt(parse, sources, k))
  }

  /**
   * One sheet per source, in source order, under pairwise distinct names,
   * each a legal sheet name while the source count has at most 26 digits.
   */
  lemma SheetsForNames(parse: Parser, sources: seq<Source>)
    requires AllParse(parse, sources)
    ensures var sheets := SheetsFor(parse, sources);
      && |sheets| == |sources|
      && (forall k, m :: 0 <= k < m < |sheets| ==> sheets[k].name != sheets[m].name)
      && (|FormatInt(|sources| + 1)| <= 26 ==> forall k :: 0 <= k < |sheets| ==> IsLegalSheetName(sheets[k].name))
  {
    var sheets := SheetsFor(parse, sources);
    var names := Registered(Bases(sources)).0;
    forall k, m | 0 <= k < m < |sheets|
      ensures sheets[k].name != sheets[m].name
    {
      RegisteredName(Bases(sources), m);
      assert names[k] == names[..m][k];
      assert sheets[k].name == names[k] && sheets[m].name == names[m];
    }
    if |FormatInt(|sources| + 1)| <= 26 {
      forall k | 0 <= k < |sheets|
        ensures IsLegalSheetName(sheets[k].name)
      {
        RegisteredLegal(sources, k);
      }
    }
  }

  /** Sheet `k` holds the header and then one row per case of source `k`, in order. */
  lemma SheetRowsShape(parse: Parser, sources: seq<Source>, k: nat)
    requires AllParse(parse, sources) && k < |sources|
    ensures var rows := SheetsFor(parse, sources)[k].rows; var cases := parse(sources[k].input).value;
      && |rows| == 1 + |cases| && rows[0] == Header
      && forall j :: 0 <= j < |cases| ==> rows[1 + j] == CaseRow(cases[j])
  {
  }

  /** A sheet keeps the base derived from its file name unless an earlier sheet already has it. */
  lemma SheetKeepsBase(parse: Parser, sources: seq<Source>, k: nat)
    requires AllParse(parse, sources) && k < |sources|
    ensures var sheets := SheetsFor(parse, sources);
      var base := DeriveSheetName(sources[k].name, k);
      sheets[k].name == base <==> forall m :: 0 <= m < k ==> sheets[m].name != base
  {
    var sheets := SheetsFor(parse, sources);
    var bases := Bases(sources);
    var names := Registered(bases).0;
    RegisteredName(bases, k);
    assert bases[k] == DeriveSheetName(sources[k].name, k);
    SheetNamesPrefix(parse, sources, k);
  }

  lemma SheetNamesPrefix(parse: Parser, sources: seq<Source>, k: nat)
    requires AllParse(parse, sources) && k < |sources|
    ensures var sheets := SheetsFor(parse, sources); var names := Registered(Bases(sources)).0;
      && sheets[k].name == names[k]
      && forall x :: x in names[..k] <==> exists m :: 0 <= m < k && sheets[m].name == x
  {
    var sheets := SheetsFor(parse, sources);
    var names := Registered(Bases(sources)).0;
    forall x
      ensures x in names[..k] <==> exists m :: 0 <= m < k && sheets[m].name == x
    {
      if x in names[..k] {
        var m :| 0 <= m < k && names[..k][m] == x;
        assert sheets[m].name == x;
      }
      if exists m :: 0 <= m < k && sheets[m].name == x {
        var m :| 0 <= m < k && sheets[m].name == x;
        assert names[..k][m] == x;
      }
    }
  }

  /** With the model's extractor, a sheet has one row per `#### ` line of its document, after the header. */
  lemma ExtractedSheetRows(sources: seq<Source>, k: nat)
    requires AllParse(Extract, sources) && k < |sources|
    ensures |SheetsFor(Extract, sources)[k].rows| == 1 + |CaseParser.CaseHeadings(sources[k].input.lines)|
  {
  }

  /** The row loop of `Convert` and `Create`: the header, then one row per case. */
  method SheetRows(cases: seq<Case>) returns (rows: seq<seq<string>>)
    ensures rows == [Header] + CaseRows(cases)
  {
    rows := [Header];
    for j := 0 to |cases|
      invariant rows == [Header] + CaseRows(cases[..j])
    {
      CaseRowsNext(cases, j);
      rows := rows + [CaseRow(cases[j])];
    }
    assert cases[..|cases|] == cases;
  }

  lemma CaseRowsNext(cases: seq<Case>, j: nat)
    requires j < |cases|
    ensures [Header] + CaseRows(cases[..j + 1]) == [Header] + CaseRows(cases[..j]) + [CaseRow(cases[j])]
  {
    assert cases[..j + 1][..j] == cases[..j];
  }

  /**
   * The source loop of `MarkdownToSpreadsheet.Convert` and
   * `MarkdownToGoogleSpreadsheet.Create`: derives and registers each
   * source's sheet name, then extracts its cases; the first source that fails
   * to parse ends the loop with an error naming its sheet.
   */
  method CollectSheets(parse: Parser, sources: seq<Source>) returns (r: Result<seq<Sheet>, ConvertError>)
    ensures var p := ParsedPrefix(parse, sources);
      if p < |sources| then r == Err(ParseFailed(Registered(Bases(sources)).0[p], parse(sources[p].input).error))
      else AllParse(parse, sources) && r == Ok(SheetsFor(parse, sources))
  {
    var registry := new NameRegistry();
    ghost var bases := Bases(sources);
    var sheets: seq<Sheet> := [];
    for index := 0 to |sources|
      invariant index <= ParsedPrefix(parse, sources)
      invariant registry.usage == Registered(bases[..index]).1 && registry.final == Registered(bases[..index]).2
      invariant Collected(parse, sources, sheets, index)
    {
      var sheetBase := DeriveSheetName(sources[index].name, index);
      var sheetName := registry.EnsureUnique(sheetBase);
      RegistryStep(bases, index, sheetName, registry.usage, registry.final);
      var parsed := parse(sources[index].input);
      if parsed.Err? {
        FailsAt(parse, sources, index);
        return Err(ParseFailed(sheetName, parsed.error));
      }
      var rows := SheetRows(parsed.value);
      CollectedNext(parse, sources, sheets, index, Sheet(sheetName, rows));
      sheets := sheets + [Sheet(sheetName, rows)];
    }
    CollectedAll(parse, sources, sheets);
    AllParsed(parse, sources);
    return Ok(sheets);
  }

  /** A source that fails to parse, with all before it parsing, is the first failure. */
  lemma FailsAt(parse: Parser, sources: seq<Source>, index: nat)
    requires index < |sources| && index <= ParsedPrefix(parse, sources) && parse(sources[index].input).Err?
    ensures ParsedPrefix(parse, sources) == index
  {
  }

  /** The loop state of `CollectSheets`: the sheets of the first `index` sources, all of which parse. */
  ghost predicate Collected(parse: Parser, sources: seq<Source>, sheets: seq<Sheet>, index: nat) {
    && index <= |sources| && |sheets| == index
    && forall k :: 0 <= k < index ==> parse(sources[k].input).Ok? && sheets[k] == SheetAt(parse, sources, k)
  }

  lemma CollectedNext(parse: Parser, sources: seq<Source>, sheets: seq<Sheet>, index: nat, sheet: Sheet)
    requires Collected(parse, sources, sheets, index) && index < |sources|
    requires parse(sources[index].input).Ok? && sheet == SheetAt(parse, sources, index)
    ensures Collected(parse, sources, sheets + [sheet], index + 1)
  {
  }

  lemma CollectedAll(parse: Parser, sources: seq<Source>, sheets: seq<Sheet>)
    requires Collected(parse, sources, sheets, |sources|)
    ensures AllParse(parse, sources) && sheets == SheetsFor(parse, sources)
  {
  }

  // ---------------------------------------------------------------------------
  // MarkdownToSpreadsheet
  // ---------------------------------------------------------------------------

  /**
   * `MarkdownToSpreadsheet.Convert`: no sources and a parse failure are
   * reported before anything reaches the archive; otherwise the workbook of
   * the collected sheets is written.
   */
  method ConvertWorkbook(parse: Parser, sources: seq<Source>, zip: ZipSink) returns (err: Option<ConvertError>)
    requires !zip.closed
    modifies zip
    ensures sources == [] ==> err == Some(NoSources) && zip.parts == old(zip.parts) && !zip.closed
    ensures sources != [] && ParsedPrefix(parse, sources) < |sources| ==>
      var p := ParsedPrefix(parse, sources);
      && err == Some(ParseFailed(Registered(Bases(sources)).0[p], parse(sources[p].input).error))
      && zip.parts == old(zip.parts) && !zip.closed
    ensures sources != [] && ParsedPrefix(parse, sources) == |sources| ==>
      AllParse(parse, sources) && WroteWorkbook(SheetsFor(parse, sources), zip.refused, zip.closeFails, old(zip.parts), zip.parts, zip.closed, err)
  {
    if |sources| == 0 {
      return Some(NoSources);
    }
    var r := CollectSheets(parse, sources);
    if r.Err? {
      return Some(r.error);
    }
    var e := WriteWorkbook(zip, r.value);
    err := if e.Some? then Some(WorkbookFailed(e.value)) else None;
  }

  /** The outcome of writing the workbook of `sheets`: the parts in order up to the first refused one, and its error. */
  ghost predicate WroteWorkbook(sheets: seq<Sheet>, refused: set<string>, closeFails: bool,
                                before: seq<(string, string)>, after: seq<(string, string)>, closed: bool,
                                err: Option<ConvertError>)
  {
    var ps := WorkbookParts(sheets);
    var k := FirstRefused(ps, refused);
    && closed && after == before + ps[..k]
    && err == if k < |ps| then Some(WorkbookFailed(PartFailed(ps[k].0)))
              else if closeFails then Some(WorkbookFailed(CloseFailed)) else None
  }

  // ---------------------------------------------------------------------------
  // MarkdownToGoogleSpreadsheet
  // ---------------------------------------------------------------------------

  datatype RemoteSheet = RemoteSheet(title: string, rows: seq<seq<string>>)

  datatype RemoteSpreadsheet = RemoteSpreadsheet(title: string, sheets: seq<RemoteSheet>)

  function RemoteSheets(sheets: seq<Sheet>): seq<RemoteSheet> {
    seq(|sheets|, k requires 0 <= k < |sheets| => RemoteSheet(sheets[k].name, sheets[k].rows))
  }

  /** The creator service: the spreadsheets it was asked to create, and its reply (an identifier or a failure). */
  class SpreadsheetCreator {
    var requests: seq<RemoteSpreadsheet>
    const reply: Result<string, string>

    constructor (reply: Result<string, string>)
      ensures requests == [] && this.reply == reply
    {
      requests := [];
      this.reply := reply;
    }

    method CreateSpreadsheet(spreadsheet: RemoteSpreadsheet) returns (r: Result<string, string>)
      modifies this
      ensures requests == old(requests) + [spreadsheet] && r == reply
    {
      requests := requests + [spreadsheet];
      r := reply;
    }
  }

  /**
   * `MarkdownToGoogleSpreadsheet.Create`: an empty title, then no sources,
   * then a parse failure are reported without calling the creator;
   * otherwise the creator is asked once for the spreadsheet of the collected
   * sheets and its reply is returned.
   */
  method CreateRemote(parse: Parser, title: string, sources: seq<Source>, creator: SpreadsheetCreator)
    returns (r: Result<string, ConvertError>)
    modifies creator
    ensures title == "" ==> r == Err(EmptyTitle) && creator.requests == old(creator.requests)
    ensures title != "" && sources == [] ==> r == Err(NoSources) && creator.requests == old(creator.requests)
    ensures title != "" && sources != [] && ParsedPrefix(parse, sources) < |sources| ==>
      var p := ParsedPrefix(parse, sources);
      && r == Err(ParseFailed(Registered(Bases(sources)).0[p], parse(sources[p].input).error))
      && creator.requests == old(creator.requests)
    ensures title != "" && sources != [] && ParsedPrefix(parse, sources) == |sources| ==>
      && AllParse(parse, sources)
      && creator.requests == old(creator.requests) + [RemoteSpreadsheet(title, RemoteSheets(SheetsFor(parse, sources)))]
      && r == if creator.reply.Ok? then Ok(creator.reply.value) else Err(CreateFailed(creator.reply.error))
  {
    if title == "" {
      return Err(EmptyTitle);
    }
    if |sources| == 0 {
      return Err(NoSources);
    }
    var collected := CollectSheets(parse, sources);
    if collected.Err? {
      return Err(collected.error);
    }
    var spreadsheet := RemoteSpreadsheet(title, RemoteSheets(collected.value));
    var reply := creator.CreateSpreadsheet(spreadsheet);
    if reply.Err? {
      return Err(CreateFailed(reply.error));
    }
    return Ok(reply.value);
  }
}
