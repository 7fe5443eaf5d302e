/**
 * The web preview's CSV reader (`parseCSV` in the page script): a
 * character-level quote-state machine in the manner of section 2 of RFC 4180.
 * Outside quotes a comma closes a field, a line feed closes a row, a
 * carriage return is dropped and a quote opens a quoted stretch; inside
 * quotes a doubled quote stands for one quote, a lone quote closes the
 * stretch and everything else is kept verbatim.
 */
module CsvPreview {

  /** The reader's variables: finished rows, the fields of the open row, the open field, the quote mode. */
  datatype ScanState = ScanState(rows: seq<seq<string>>, current: seq<string>, value: string, inQuotes: bool)

  const Start: ScanState := ScanState([], [], "", false)

  /** One character, when it is not the first of a doubled quote inside quotes. */
  function Step(st: ScanState, c: char): ScanState {
    if st.inQuotes then
      if c == '"' then st.(inQuotes := false) else st.(value := st.value + [c])
    else if c == '"' then st.(inQuotes := true)
    else if c == ',' then st.(current := st.current + [st.value], value := "")
    else if c == '\r' then st
    else if c == '\n' then st.(rows := st.rows + [st.current + [st.value]], current := [], value := "")
    else st.(value := st.value + [c])
  }

  /** Inside quotes, `s` starts with two quotes. */
  predicate DoubledQuote(s: string, st: ScanState) {
    st.inQuotes && |s| >= 2 && s[0] == '"' && s[1] == '"'
  }

  /** The state after reading all of `s` from `st`. */
  function Scan(s: string, st: ScanState): ScanState
    decreases |s|
  {
    if s == [] then st
    else if DoubledQuote(s, st) then Scan(s[2..], st.(value := st.value + "\""))
    else Scan(s[1..], Step(st, s[0]))
  }

  /** The final row is kept when its open field is non-empty or it already has fields. */
  function Finish(st: ScanState): seq<seq<string>> {
    if st.value != "" || |st.current| > 0 then st.rows + [st.current + [st.value]] else st.rows
  }

  /** What `parseCSV` returns for `text`. */
  function Parsed(text: string): seq<seq<string>> {
    Finish(Scan(text, Start))
  }

  /** One turn of the reader's loop at `index`. */
  lemma ScanAt(text: string, index: nat, st: ScanState)
    requires index < |text|
    ensures DoubledQuote(text[index..], st) <==> st.inQuotes && text[index] == '"' && index + 1 < |text| && text[index + 1] == '"'
    ensures Scan(text[index..], st) ==
      if DoubledQuote(text[index..], st) then Scan(text[index + 2..], st.(value := st.value + "\""))
      else Scan(text[index + 1..], Step(st, text[index]))
  {
    assert text[index..][1..] == text[index + 1..];
    if index + 1 < |text| {
      assert text[index..][2..] == text[index + 2..];
    }
  }

  /** `parseCSV`. */
  method ParseCsv(text: string) returns (rows: seq<seq<string>>)
    ensures rows == Parsed(text)
  {
    rows := [];
    var current: seq<string> := [];
    var value := "";
    var inQuotes := false;
    var index := 0;
    while index < |text|
      invariant index <= |text|
      invariant Scan(text[index..], ScanState(rows, current, value, inQuotes)) == Scan(text, Start)
      decreases |text| - index
    {
      var c := text[index];
      ScanAt(text, index, ScanState(rows, current, value, inQuotes));
      if inQuotes {
        if c == '"' {
          if index + 1 < |text| && text[index + 1] == '"' {
            value := value + "\"";
            index := index + 1;
          } else {
            inQuotes := false;
          }
        } else {
          value := value + [c];
        }
      } else if c == '"' {
        inQuotes := true;
      } else if c == ',' {
        current := current + [value];
        value := "";
      } else if c == '\r' {
      } else if c == '\n' {
        current := current + [value];
        rows := rows + [current];
        current := [];
        value := "";
      } else {
        value := value + [c];
      }
      index := index + 1;
    }
    if value != "" || |current| > 0 {
      current := current + [value];
      rows := rows + [current];
    }
  }

  // ---------------------------------------------------------------------------
  // Reading text piece by piece
  // ---------------------------------------------------------------------------

  /**
   * Reading `a` then `b` is reading `a + b`, unless `b` starts with a quote
   * that would pair with a quote ending `a`.
   */
  lemma {:induction false} ScanAppend(a: string, b: string, st: ScanState)
    requires b == [] || b[0] != '"'
    ensures Scan(a + b, st) == Scan(b, Scan(a, st))
    decreases |a|
  {
    if a == [] {
      assert a + b == b;
    } else if DoubledQuote(a, st) {
      assert (a + b)[2..] == a[2..] + b;
      ScanAppend(a[2..], b, st.(value := st.value + "\""));
    } else {
      assert (a + b)[1..] == a[1..] + b;
      assert !DoubledQuote(a + b, st);
      ScanAppend(a[1..], b, Step(st, a[0]));
    }
  }

  lemma ParsedEmpty()
    ensures Parsed("") == []
  {
  }

  /**
   * A line feed outside quotes closes the open row, and a text that ends
   * with one gets no further, empty row.
   */
  lemma ParsedTrailingNewline(t: string)
    requires !Scan(t, Start).inQuotes
    ensures var st := Scan(t, Start);
      Parsed(t + "\n") == st.rows + [st.current + [st.value]]
  {
    ScanAppend(t, "\n", Start);
  }

  /** `s` with its carriage returns removed. */
  function DropReturns(s: string): (r: string)
    ensures '\r' !in r
  {
    if s == [] then [] else (if s[0] == '\r' then [] else [s[0]]) + DropReturns(s[1..])
  }

  /** Outside quotes, in text without quotes, carriage returns are ignored. */
  lemma {:induction false} ReturnsDropped(s: string, st: ScanState)
    requires !st.inQuotes && '"' !in s
    ensures Scan(s, st) == Scan(DropReturns(s), st)
    decreases |s|
  {
    if s != [] {
      assert s == [s[0]] + s[1..];
      ReturnsDropped(s[1..], Step(st, s[0]));
      var rest := DropReturns(s[1..]);
      if s[0] != '\r' {
        var t := [s[0]] + rest;
        assert DropReturns(s) == t;
        assert t[0] == s[0] && t[1..] == rest && !DoubledQuote(t, st);
        assert Scan(t, st) == Scan(rest, Step(st, s[0]));
      } else {
        assert DropReturns(s) == [] + rest == rest;
        assert Step(st, s[0]) == st;
      }
    }
  }

  // ---------------------------------------------------------------------------
  // Row and field counts
  // ---------------------------------------------------------------------------

  /**
   * The commas and line feeds of `s` that stand outside quotes, when
   * reading starts inside quotes or not; a doubled quote inside quotes is
   * one escaped quote.
   */
  function Structure(s: string, inQuotes: bool): (u: string)
    ensures forall k :: 0 <= k < |u| ==> u[k] == ',' || u[k] == '\n'
    decreases |s|
  {
    if s == [] then []
    else if inQuotes then
      if s[0] != '"' then Structure(s[1..], true)
      else if |s| >= 2 && s[1] == '"' then Structure(s[2..], true)
      else Structure(s[1..], false)
    else if s[0] == '"' then Structure(s[1..], true)
    else if s[0] == ',' || s[0] == '\n' then [s[0]] + Structure(s[1..], false)
    else Structure(s[1..], false)
  }

  /**
   * The field counts of the rows that a run of commas and line feeds closes,
   * starting from an open row with `fields` closed fields; and the number of
   * closed fields in the row left open.
   */
  function Layout(u: string, fields: nat): (seq<nat>, nat)
    decreases |u|
  {
    if u == [] then ([], fields)
    else if u[0] == '\n' then
      var rest := Layout(u[1..], 0);
      ([fields + 1] + rest.0, rest.1)
    else Layout(u[1..], fields + 1)
  }

  /** Line feeds in `u`. */
  function Newlines(u: string): nat {
    if u == [] then 0 else (if u[0] == '\n' then 1 else 0) + Newlines(u[1..])
  }

  /** One closed row per line feed. */
  lemma {:induction false} LayoutRows(u: string, fields: nat)
    ensures |Layout(u, fields).0| == Newlines(u)
    decreases |u|
  {
    if u != [] {
      if u[0] == '\n' {
        LayoutRows(u[1..], 0);
      } else {
        LayoutRows(u[1..], fields + 1);
      }
    }
  }

  function Widths(rows: seq<seq<string>>): seq<nat> {
    seq(|rows|, k requires 0 <= k < |rows| => |rows[k]|)
  }

  lemma WidthsAppend(rows: seq<seq<string>>, row: seq<string>, more: seq<nat>)
    ensures Widths(rows + [row]) + more == Widths(rows) + ([|row|] + more)
  {
    assert Widths(rows + [row]) == Widths(rows) + [|row|];
  }

  /** The rows the reader closes have the field counts the layout of the unquoted commas and line feeds gives. */
  lemma {:induction false} ScanLayout(s: string, st: ScanState)
    ensures var end := Scan(s, st); var lay := Layout(Structure(s, st.inQuotes), |st.current|);
      Widths(end.rows) == Widths(st.rows) + lay.0 && |end.current| == lay.1
    decreases |s|
  {
    if s == [] {
      assert Widths(st.rows) + [] == Widths(st.rows);
    } else if DoubledQuote(s, st) {
      ScanLayout(s[2..], st.(value := st.value + "\""));
    } else {
      var next := Step(st, s[0]);
      ScanLayout(s[1..], next);
      if !st.inQuotes && s[0] == '\n' {
        WidthsAppend(st.rows, st.current + [st.value], Layout(Structure(s[1..], false), 0).0);
      } else if !st.inQuotes && s[0] == ',' {
        assert ([s[0]] + Structure(s[1..], false))[1..] == Structure(s[1..], false);
      }
    }
  }

  /**
   * The rows of `parseCSV(text)`: one per line feed outside quotes, each with
   * one field more than its commas outside quotes, then one more row exactly
   * when the part after the last such line feed has a comma outside quotes
   * or leaves a non-empty value pending. A trailing `""` or `\r` alone adds
   * no row.
   */
  lemma ParsedShape(text: string)
    ensures var lay := Layout(Structure(text, false), 0); var pending := Scan(text, Start).value;
      && |lay.0| == Newlines(Structure(text, false))
      && ((lay.1 > 0 || pending != "") ==> Widths(Parsed(text)) == lay.0 + [lay.1 + 1])
      && ((lay.1 == 0 && pending == "") ==> Widths(Parsed(text)) == lay.0)
  {
    var end := Scan(text, Start);
    ScanLayout(text, Start);
    LayoutRows(Structure(text, false), 0);
    assert Widths(Start.rows) == [];
    if end.value != "" || |end.current| > 0 {
      assert Widths(end.rows + [end.current + [end.value]]) == Widths(end.rows) + [|end.current| + 1];
    }
  }

  // ---------------------------------------------------------------------------
  // Reading back quoted fields
  // ---------------------------------------------------------------------------

  /** A field's text with each quote doubled. */
  function Doubled(v: string): string {
    if v == [] then [] else (if v[0] == '"' then "\"\"" else [v[0]]) + Doubled(v[1..])
  }

  /** A field written as a quoted field. */
  function Quoted(v: string): string {
    "\"" + Doubled(v) + "\""
  }

  /** A row of quoted fields separated by commas. */
  function QuotedFields(fields: seq<string>): string
    requires fields != []
  {
    if |fields| == 1 then Quoted(fields[0]) else Quoted(fields[0]) + "," + QuotedFields(fields[1..])
  }

  /** Rows written as lines of quoted fields, each ended by a line feed. */
  function Encode(rows: seq<seq<string>>): string
    requires forall k :: 0 <= k < |rows| ==> rows[k] != []
  {
    if rows == [] then [] else QuotedFields(rows[0]) + "\n" + Encode(rows[1..])
  }

  /** Inside quotes, a doubled field and its closing quote read as the field. */
  lemma {:induction false} ScanDoubled(v: string, rest: string, st: ScanState)
    requires st.inQuotes && (rest == [] || rest[0] != '"')
    ensures Scan(Doubled(v) + "\"" + rest, st) == Scan(rest, st.(value := st.value + v, inQuotes := false))
    decreases |v|
  {
    var s := Doubled(v) + "\"" + rest;
    if v == [] {
      assert s == "\"" + rest && s[1..] == rest;
      assert st.value + v == st.value;
    } else if v[0] == '"' {
      var tail := Doubled(v[1..]) + "\"" + rest;
      assert s == "\"\"" + tail && s[2..] == tail;
      ScanDoubled(v[1..], rest, st.(value := st.value + "\""));
      assert st.value + "\"" + v[1..] == st.value + v;
    } else {
      var tail := Doubled(v[1..]) + "\"" + rest;
      assert s == [v[0]] + tail && s[1..] == tail;
      ScanDoubled(v[1..], rest, st.(value := st.value + [v[0]]));
      assert st.value + [v[0]] + v[1..] == st.value + v;
    }
  }

  /** Outside quotes, a quoted field reads as the field. */
  lemma ScanQuoted(v: string, rest: string, st: ScanState)
    requires !st.inQuotes && (rest == [] || rest[0] != '"')
    ensures Scan(Quoted(v) + rest, st) == Scan(rest, st.(value := st.value + v))
  {
    var s := Quoted(v) + rest;
    var body := Doubled(v) + "\"" + rest;
    assert s == "\"" + body;
    assert s[0] == '"' && s[1..] == body;
    var quoting := st.(inQuotes := true);
    assert Scan(s, st) == Scan(body, quoting);
    ScanDoubled(v, rest, quoting);
    assert quoting.(value := quoting.value + v, inQuotes := false) == st.(value := st.value + v);
  }

  /** A last quoted field and a line feed close the row with that field. */
  lemma ScanLastField(f: string, rest: string, st: ScanState)
    requires !st.inQuotes && st.value == ""
    ensures Scan(Quoted(f) + "\n" + rest, st) == Scan(rest, ScanState(st.rows + [st.current + [f]], [], "", false))
  {
    var after := "\n" + rest;
    assert Quoted(f) + "\n" + rest == Quoted(f) + after;
    ScanQuoted(f, after, st);
    var filled := st.(value := st.value + f);
    assert st.value + f == f;
    assert after[0] == '\n' && after[1..] == rest;
    assert Scan(after, filled) == Scan(rest, Step(filled, '\n'));
  }

  /** A quoted field and a comma close that field and leave the row open. */
  lemma ScanNextField(f: string, tail: string, st: ScanState)
    requires !st.inQuotes && st.value == ""
    ensures Scan(Quoted(f) + "," + tail, st) == Scan(tail, st.(current := st.current + [f]))
  {
    var after := "," + tail;
    assert Quoted(f) + "," + tail == Quoted(f) + after;
    ScanQuoted(f, after, st);
    var filled := st.(value := st.value + f);
    assert st.value + f == f;
    assert after[0] == ',' && after[1..] == tail;
    assert Scan(after, filled) == Scan(tail, Step(filled, ','));
  }

  lemma QuotedFieldsCons(fields: seq<string>, rest: string)
    requires |fields| > 1
    ensures QuotedFields(fields) + "\n" + rest == Quoted(fields[0]) + "," + (QuotedFields(fields[1..]) + "\n" + rest)
  {
  }

  lemma FieldsCons(current: seq<string>, fields: seq<string>)
    requires fields != []
    ensures current + [fields[0]] + fields[1..] == current + fields
    ensures |fields| == 1 ==> current + [fields[0]] == current + fields
  {
    assert fields == [fields[0]] + fields[1..];
  }

  /** A line of quoted fields closes a row holding exactly those fields. */
  lemma {:induction false} ScanFields(fields: seq<string>, rest: string, st: ScanState)
    requires fields != [] && !st.inQuotes && st.value == ""
    ensures Scan(QuotedFields(fields) + "\n" + rest, st) == Scan(rest, ScanState(st.rows + [st.current + fields], [], "", false))
    decreases |fields|
  {
    var f := fields[0];
    if |fields| == 1 {
      FieldsCons(st.current, fields);
      ScanLastField(f, rest, st);
    } else {
      var tail := QuotedFields(fields[1..]) + "\n" + rest;
      QuotedFieldsCons(fields, rest);
      ScanNextField(f, tail, st);
      var mid := st.(current := st.current + [f]);
      ScanFields(fields[1..], rest, mid);
      FieldsCons(st.current, fields);
    }
  }

  /** Encoded rows read as themselves, after the rows already read. */
  lemma {:induction false} ScanEncoded(rows: seq<seq<string>>, st: ScanState)
    requires forall k :: 0 <= k < |rows| ==> rows[k] != []
    requires st.current == [] && st.value == "" && !st.inQuotes
    ensures Scan(Encode(rows), st) == ScanState(st.rows + rows, [], "", false)
    decreases |rows|
  {
    if rows == [] {
      assert st.rows + rows == st.rows;
    } else {
      assert Encode(rows) == QuotedFields(rows[0]) + "\n" + Encode(rows[1..]);
      ScanFields(rows[0], Encode(rows[1..]), st);
      assert st.current + rows[0] == rows[0];
      var next := ScanState(st.rows + [rows[0]], [], "", false);
      ScanEncoded(rows[1..], next);
      assert st.rows + [rows[0]] + rows[1..] == st.rows + rows;
    }
  }

  /**
   * Rows of at least one field each, written as lines of quoted fields —
   * whatever quotes, commas, carriage returns and line feeds the fields
   * hold — read back as the same rows.
   */
  lemma EncodeRoundTrip(rows: seq<seq<string>>)
    requires forall k :: 0 <= k < |rows| ==> rows[k] != []
    ensures Parsed(Encode(rows)) == rows
  {
    ScanEncoded(rows, Start);
  }
}
