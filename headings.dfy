/**
 * The top-level heading collector: every line that, once trimmed, starts
 * with `# ` contributes its remainder, trimmed again. Unlike the case
 * extractor it trims before testing the prefix, so an indented `# ` heading
 * counts.
 */
module HeadingParser {
  import opened Results
  import opened Text
  import opened Domain

  /** The trimmed line starts with `# `. */
  predicate IsTitle(line: string) {
    HasPrefix(TrimSpace(line), "# ")
  }

  /** The text a title line contributes. */
  function TitleText(line: string): string
    requires IsTitle(line)
  {
    TrimSpace(TrimSpace(line)[2..])
  }

  /** A title is never empty: the trimmed line cannot end in the blank after `#`. */
  lemma TitleTextNonEmpty(line: string)
    requires IsTitle(line)
    ensures TitleText(line) != [] && Trimmed(TitleText(line))
  {
    var t := TrimSpace(line);
    assert t[1] == ' ';
    assert |t| >= 3;
    var rest := t[2..];
    assert rest[|rest| - 1] == t[|t| - 1];
    TrimSpaceEmpty(rest);
  }

  /** The titles of a document, in line order. */
  function TitlesOf(ls: seq<string>): seq<string>
  {
    if ls == [] then []
    else TitlesOf(ls[..|ls| - 1]) + (if IsTitle(ls[|ls| - 1]) then [TitleText(ls[|ls| - 1])] else [])
  }

  lemma TitlesOfAppend(ls: seq<string>, line: string)
    ensures TitlesOf(ls + [line]) == TitlesOf(ls) + (if IsTitle(line) then [TitleText(line)] else [])
  {
    assert (ls + [line])[..|ls|] == ls;
  }

  /**
   * `Headings`: reads every line and collects the title texts, starting from
   * an empty list; a read failure discards them and returns the error alone.
   */
  method Headings(input: Stream) returns (r: Result<seq<string>, ReadError>)
    ensures input.failure.Some? ==> r == Err(input.failure.value)
    ensures input.failure.None? ==> r == Ok(TitlesOf(input.lines))
  {
    var lines := input.lines;
    var headings: seq<string> := [];
    var i := 0;
    while i < |lines|
      invariant 0 <= i <= |lines|
      invariant headings == TitlesOf(lines[..i])
    {
      var line := TrimSpace(lines[i]);
      assert lines[..i + 1] == lines[..i] + [lines[i]];
      TitlesOfAppend(lines[..i], lines[i]);
      if HasPrefix(line, "# ") {
        headings := headings + [TrimSpace(line[2..])];
      }
      i := i + 1;
    }
    assert lines[..i] == lines;
    if input.failure.Some? {
      return Err(input.failure.value);
    }
    return Ok(headings);
  }

  /** Every collected heading is non-empty and carries no surrounding whitespace. */
  lemma {:induction false} TitlesAreTrimmed(ls: seq<string>)
    ensures forall k :: 0 <= k < |TitlesOf(ls)| ==> TitlesOf(ls)[k] != [] && Trimmed(TitlesOf(ls)[k])
  {
    if ls != [] {
      var last := ls[|ls| - 1];
      TitlesAreTrimmed(ls[..|ls| - 1]);
      if IsTitle(last) {
        TitleTextNonEmpty(last);
      }
    }
  }

  /** The list is empty exactly when no line is a title line. */
  lemma {:induction false} TitlesEmpty(ls: seq<string>)
    ensures TitlesOf(ls) == [] <==> forall i :: 0 <= i < |ls| ==> !IsTitle(ls[i])
  {
    if ls != [] {
      var init := ls[..|ls| - 1];
      TitlesEmpty(init);
      assert forall i :: 0 <= i < |init| ==> init[i] == ls[i];
    }
  }

  /** Lines that only look like titles after a second `#` or without the blank contribute nothing. */
  lemma SubheadingIsNoTitle(line: string)
    requires line != [] && !IsSpace(line[0])
    requires HasPrefix(line, "##") || HasPrefix(line, "#\t") || line == "#"
    ensures !IsTitle(line)
  {
    TrimSpaceKeepsFirst(line);
    var t := TrimSpace(line);
    if HasPrefix(line, "##") {
      assert line[1] == '#';
      if |t| >= 2 {
        assert t == line[LeadingSpaces(line)..][..|t|];
      }
    }
  }

  /** An indented title counts, with its text trimmed. */
  lemma IndentedTitle()
    ensures IsTitle("  # Title ") && TitleText("  # Title ") == "Title"
  {
    TrimIndentedTitle();
    assert "# Title"[2..] == "Title";
    TrimSpaceIdempotent("Title");
  }

  lemma TrimIndentedTitle()
    ensures TrimSpace("  # Title ") == "# Title"
  {
    var s := "  # Title ";
    TrimSpaceBetween(s, 2, 9);
    assert s[2..9] == "# Title";
  }

  /** A trimmed `# ` line contributes its text after the marker. */
  lemma PlainTitle(text: string)
    requires text != [] && Trimmed(text)
    ensures IsTitle("# " + text) && TitleText("# " + text) == text
  {
    var s := "# " + text;
    TrimSpaceBetween(s, 0, |s|);
    assert s[0..|s|] == s;
    assert s[2..] == text;
    TrimSpaceIdempotent(text);
  }

  /** A line whose first character is neither whitespace nor `#` is no title. */
  lemma TextIsNoTitle(line: string)
    requires line != [] && !IsSpace(line[0]) && line[0] != '#'
    ensures !IsTitle(line)
  {
    TrimSpaceKeepsFirst(line);
  }

  /** A document without titles gives an empty list, not a failure. */
  lemma NoTitlesExample()
    ensures TitlesOf(["No headings here"]) == []
  {
    TextIsNoTitle("No headings here");
    TitlesOfAppend([], "No headings here");
  }
}
