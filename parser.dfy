/**
 * The case extractor: a single pass over the lines of a Markdown document
 * that turns `## `, `### ` and `#### ` headings into the major, medium and
 * minor item of each test case, ordered-list lines into its validation steps
 * and task-list lines into its checkpoints.
 *
 * `Parse` is the line loop; `Expected` is an independent, declarative account
 * of its result (one case per `#### ` line, built from the lines around it),
 * and the loop is proved to compute it.
 */
module CaseParser {
  import opened Results
  import opened Text
  import opened Domain

  // ---------------------------------------------------------------------------
  // Line classes
  // ---------------------------------------------------------------------------

  /** `## ` at the very start of the untrimmed line. */
  predicate IsMajorHeading(line: string) {
    HasPrefix(line, "## ")
  }

  /** `### ` at the very start of the untrimmed line. */
  predicate IsMediumHeading(line: string) {
    HasPrefix(line, "### ")
  }

  /** `#### ` at the very start of the untrimmed line. */
  predicate IsCaseHeading(line: string) {
    HasPrefix(line, "#### ")
  }

  /** A line is at most one kind of heading. */
  lemma HeadingsExclusive(line: string)
    ensures !(IsMajorHeading(line) && IsMediumHeading(line))
    ensures !(IsMajorHeading(line) && IsCaseHeading(line))
    ensures !(IsMediumHeading(line) && IsCaseHeading(line))
  {
    if IsMajorHeading(line) { assert line[2] == "## "[2]; }
    if IsMediumHeading(line) { assert line[3] == "### "[3]; }
  }

  /** A line that changes the major or medium item. */
  predicate IsSection(line: string) {
    IsMajorHeading(line) || IsMediumHeading(line)
  }

  /** Number of ASCII digits at the front of `s` (`\d`). */
  function DigitRun(s: string): (n: nat)
    ensures n <= |s|
    ensures forall k :: 0 <= k < n ==> IsDigit(s[k])
    ensures n < |s| ==> !IsDigit(s[n])
  {
    if s != [] && IsDigit(s[0]) then 1 + DigitRun(s[1..]) else 0
  }

  /** Number of `\s` characters at the front of `s`. */
  function RegexSpaceRun(s: string): (n: nat)
    ensures n <= |s|
    ensures forall k :: 0 <= k < n ==> IsRegexSpace(s[k])
    ensures n < |s| ==> !IsRegexSpace(s[n])
  {
    if s != [] && IsRegexSpace(s[0]) then 1 + RegexSpaceRun(s[1..]) else 0
  }

  /** What `.*` captures: everything up to the first line feed. */
  function UpToNewline(s: string): (r: string)
    ensures '\n' !in r
    ensures HasPrefix(s, r)
  {
    if s == [] || s[0] == '\n' then "" else [s[0]] + UpToNewline(s[1..])
  }

  /** The trimmed line matches `^\d+\.\s+(.*)`. */
  predicate IsOrderedItem(t: string) {
    var d := DigitRun(t);
    1 <= d < |t| && t[d] == '.' && RegexSpaceRun(t[d + 1..]) >= 1
  }

  /** Group 1 of `^\d+\.\s+(.*)`: the step text without its number. */
  function StepText(t: string): string
    requires IsOrderedItem(t)
  {
    var rest := t[DigitRun(t) + 1..];
    UpToNewline(rest[RegexSpaceRun(rest)..])
  }

  /** The trimmed line matches `^\*\s+\[[ x]\]\s+(.*)`: only a space or a lower-case x marks it. */
  predicate IsTaskItem(t: string) {
    && |t| >= 1 && t[0] == '*'
    && var rest := t[1..];
       var w := RegexSpaceRun(rest);
       && 1 <= w && w + 3 <= |rest|
       && rest[w] == '[' && (rest[w + 1] == ' ' || rest[w + 1] == 'x') && rest[w + 2] == ']'
       && RegexSpaceRun(rest[w + 3..]) >= 1
  }

  /** A heading line never counts as a list line: its trimmed form starts with `#`. */
  lemma SectionIsNotItem(line: string)
    requires IsSection(line) || IsCaseHeading(line)
    ensures !IsOrderedItem(TrimSpace(line)) && !IsTaskItem(TrimSpace(line))
  {
    assert line[0] == '#';
    TrimSpaceKeepsFirst(line);
    var t := TrimSpace(line);
    assert DigitRun(t) == 0;
  }

  // ---------------------------------------------------------------------------
  // Declarative account of the result
  // ---------------------------------------------------------------------------

  /** The positions of the `#### ` lines, in document order. */
  function CaseHeadings(ls: seq<string>): (h: seq<nat>)
    ensures forall k :: 0 <= k < |h| ==> h[k] < |ls| && IsCaseHeading(ls[h[k]])
    ensures forall k :: 0 < k < |h| ==> h[k - 1] < h[k]
  {
    if ls == [] then []
    else CaseHeadings(ls[..|ls| - 1]) + (if IsCaseHeading(ls[|ls| - 1]) then [|ls| - 1] else [])
  }

  /** Appending a line adds its position exactly when it is a `#### ` line. */
  lemma CaseHeadingsAppend(ls: seq<string>, line: string)
    ensures CaseHeadings(ls + [line]) == CaseHeadings(ls) + (if IsCaseHeading(line) then [|ls|] else [])
  {
    assert (ls + [line])[..|ls|] == ls;
  }

  /** Every `#### ` line of the document is listed by `CaseHeadings`, and the positions ascend. */
  lemma {:induction false} CaseHeadingsComplete(ls: seq<string>)
    ensures forall i :: 0 <= i < |ls| && IsCaseHeading(ls[i]) ==> i in CaseHeadings(ls)
    ensures forall k, m :: 0 <= k < m < |CaseHeadings(ls)| ==> CaseHeadings(ls)[k] < CaseHeadings(ls)[m]
  {
    if ls != [] {
      var init := ls[..|ls| - 1];
      CaseHeadingsComplete(init);
      assert forall i :: 0 <= i < |init| ==> init[i] == ls[i];
    }
  }

  /** No `## ` or `### ` line after position `j`. */
  predicate NoSectionAfter(ls: seq<string>, j: nat) {
    forall i :: j < i < |ls| ==> !IsSection(ls[i])
  }

  /** No `## ` line after position `j`. */
  predicate NoMajorAfter(ls: seq<string>, j: nat) {
    forall i :: j < i < |ls| ==> !IsMajorHeading(ls[i])
  }

  /** The major item in force after `ls`: the text of the last `## ` line, or "" before any. */
  function Major(ls: seq<string>): string
  {
    if ls == [] then ""
    else if IsMajorHeading(ls[|ls| - 1]) then ls[|ls| - 1][3..]
    else Major(ls[..|ls| - 1])
  }

  /**
   * The medium item in force after `ls`: the text of the last `### ` line if no
   * `## ` line follows it, and "" when a `## ` line came last or there is none.
   */
  function Medium(ls: seq<string>): string
  {
    if ls == [] then ""
    else
      var last := ls[|ls| - 1];
      if IsMajorHeading(last) then "" else if IsMediumHeading(last) then last[4..] else Medium(ls[..|ls| - 1])
  }

  /** Appending a line: `## ` sets the major item and clears the medium item, `### ` sets only the medium item. */
  lemma SectionAppend(ls: seq<string>, line: string)
    ensures Major(ls + [line]) == if IsMajorHeading(line) then line[3..] else Major(ls)
    ensures Medium(ls + [line]) ==
      if IsMajorHeading(line) then "" else if IsMediumHeading(line) then line[4..] else Medium(ls)
  {
    assert (ls + [line])[..|ls|] == ls;
  }

  /** Before any `## ` line the major item is empty. */
  lemma {:induction false} MajorBeforeAnyHeading(ls: seq<string>)
    requires forall i :: 0 <= i < |ls| ==> !IsMajorHeading(ls[i])
    ensures Major(ls) == ""
  {
    if ls != [] {
      var init := ls[..|ls| - 1];
      assert forall i :: 0 <= i < |init| ==> init[i] == ls[i];
      MajorBeforeAnyHeading(init);
    }
  }

  /** After a `## ` line, the major item is that line's text until the next `## ` line. */
  lemma {:induction false} MajorIsLastMajorHeading(ls: seq<string>, j: nat)
    requires j < |ls| && IsMajorHeading(ls[j]) && NoMajorAfter(ls, j)
    ensures Major(ls) == ls[j][3..]
  {
    if j < |ls| - 1 {
      var init := ls[..|ls| - 1];
      assert init[j] == ls[j];
      MajorIsLastMajorHeading(init, j);
    }
  }

  /** Before any `## ` or `### ` line the medium item is empty. */
  lemma {:induction false} MediumBeforeAnySection(ls: seq<string>)
    requires forall i :: 0 <= i < |ls| ==> !IsSection(ls[i])
    ensures Medium(ls) == ""
  {
    if ls != [] {
      var init := ls[..|ls| - 1];
      assert forall i :: 0 <= i < |init| ==> init[i] == ls[i];
      MediumBeforeAnySection(init);
    }
  }

  /** A `## ` line clears the medium item until the next `### ` line. */
  lemma {:induction false} MediumResetByMajor(ls: seq<string>, j: nat)
    requires j < |ls| && IsMajorHeading(ls[j]) && NoSectionAfter(ls, j)
    ensures Medium(ls) == ""
  {
    if j < |ls| - 1 {
      var init := ls[..|ls| - 1];
      assert init[j] == ls[j];
      MediumResetByMajor(init, j);
    }
  }

  /** After a `### ` line, the medium item is that line's text until the next `## ` or `### ` line. */
  lemma {:induction false} MediumIsLastMediumHeading(ls: seq<string>, j: nat)
    requires j < |ls| && IsMediumHeading(ls[j]) && NoSectionAfter(ls, j)
    ensures Medium(ls) == ls[j][4..]
  {
    HeadingsExclusive(ls[j]);
    if j < |ls| - 1 {
      var init := ls[..|ls| - 1];
      assert init[j] == ls[j];
      MediumIsLastMediumHeading(init, j);
    }
  }

  /** The validation steps the lines of `seg` contribute, in order. */
  function StepsIn(seg: seq<string>): seq<string>
  {
    if seg == [] then []
    else
      var t := TrimSpace(seg[|seg| - 1]);
      StepsIn(seg[..|seg| - 1]) + (if IsOrderedItem(t) then [StepText(t)] else [])
  }

  /** The checkpoints the lines of `seg` contribute, in order, each the whole trimmed line. */
  function CheckpointsIn(seg: seq<string>): seq<string>
  {
    if seg == [] then []
    else
      var t := TrimSpace(seg[|seg| - 1]);
      CheckpointsIn(seg[..|seg| - 1]) + (if !IsOrderedItem(t) && IsTaskItem(t) then [t] else [])
  }

  /** Where the body of the `k`-th case ends: at the next `#### ` line, or at `n`, the end of input. */
  function BodyEnd(h: seq<nat>, k: nat, n: nat): nat
    requires k < |h|
  {
    if k + 1 < |h| then h[k + 1] else n
  }

  /**
   * The case opened by the `#### ` line at `start`, whose body is the lines
   * after it up to `end`: the items in force at `start`, and the steps and
   * checkpoints of the body.
   */
  function CaseBetween(ls: seq<string>, start: nat, end: nat): Case
    requires start < end <= |ls| && IsCaseHeading(ls[start])
  {
    var body := ls[start + 1..end];
    Case(Major(ls[..start]), Medium(ls[..start]), ls[start][5..], StepsIn(body), CheckpointsIn(body))
  }

  /** The cases a document yields: one per `#### ` line, in document order. */
  function Expected(ls: seq<string>): (cs: seq<Case>)
    ensures |cs| == |CaseHeadings(ls)|
  {
    var h := CaseHeadings(ls);
    seq(|h|, k requires 0 <= k < |h| => CaseBetween(ls, h[k], BodyEnd(h, k, |ls|)))
  }

  // ---------------------------------------------------------------------------
  // How one more line changes the declarative result
  // ---------------------------------------------------------------------------

  lemma StepsInAppend(seg: seq<string>, line: string)
    ensures StepsIn(seg + [line]) ==
      StepsIn(seg) + (if IsOrderedItem(TrimSpace(line)) then [StepText(TrimSpace(line))] else [])
    ensures CheckpointsIn(seg + [line]) ==
      CheckpointsIn(seg) + (if !IsOrderedItem(TrimSpace(line)) && IsTaskItem(TrimSpace(line)) then [TrimSpace(line)] else [])
  {
    assert (seg + [line])[..|seg|] == seg;
  }

  lemma ExpectedAt(ls: seq<string>, k: nat)
    requires k < |CaseHeadings(ls)|
    ensures var h := CaseHeadings(ls);
      Expected(ls)[k] == CaseBetween(ls, h[k], BodyEnd(h, k, |ls|))
  {
  }

  /** A case whose body ends inside `ls` is not affected by a line appended after it. */
  lemma CaseBetweenAppend(ls: seq<string>, line: string, start: nat, end: nat)
    requires start < end <= |ls| && IsCaseHeading(ls[start])
    ensures CaseBetween(ls + [line], start, end) == CaseBetween(ls, start, end)
  {
    var ls' := ls + [line];
    assert ls'[..start] == ls[..start];
    assert ls'[start] == ls[start];
    assert ls'[start + 1..end] == ls[start + 1..end];
  }

  /** Appending a line leaves every case whose body is already closed as it was. */
  lemma CaseAtAppendClosed(ls: seq<string>, line: string, k: nat)
    requires k + 1 < |CaseHeadings(ls)| || (k < |CaseHeadings(ls)| && IsCaseHeading(line))
    ensures Expected(ls + [line])[k] == Expected(ls)[k]
  {
    var ls' := ls + [line];
    CaseHeadingsAppend(ls, line);
    var h := CaseHeadings(ls);
    var h' := CaseHeadings(ls');
    ExpectedAt(ls, k);
    ExpectedAt(ls', k);
    assert BodyEnd(h', k, |ls'|) == BodyEnd(h, k, |ls|);
    CaseBetweenAppend(ls, line, h[k], BodyEnd(h, k, |ls|));
  }

  /**
   * What a line that is not a `#### ` line does to the case it falls in: an
   * ordered-list line adds a step, a task-list line adds a checkpoint, and any
   * other line leaves the case as it is.
   */
  function Absorb(c: Case, line: string): Case {
    var t := TrimSpace(line);
    if IsOrderedItem(t) then c.(validationSteps := c.validationSteps + [StepText(t)])
    else if IsTaskItem(t) then c.(checkpoints := c.checkpoints + [t])
    else c
  }

  /** A case whose body runs to the end of `ls` absorbs a line appended after it. */
  lemma CaseBetweenExtend(ls: seq<string>, line: string, start: nat)
    requires start < |ls| && IsCaseHeading(ls[start])
    ensures CaseBetween(ls + [line], start, |ls| + 1) == Absorb(CaseBetween(ls, start, |ls|), line)
  {
    var ls' := ls + [line];
    assert ls'[..start] == ls[..start];
    assert ls'[start] == ls[start];
    var body := ls[start + 1..|ls|];
    assert ls'[start + 1..|ls| + 1] == body + [line];
    StepsInAppend(body, line);
  }

  /** Appending a line that is not a `#### ` line extends the body of the last case. */
  lemma CaseAtAppendOpen(ls: seq<string>, line: string)
    requires !IsCaseHeading(line) && |CaseHeadings(ls)| > 0
    ensures var k := |CaseHeadings(ls)| - 1;
      Expected(ls + [line])[k] == Absorb(Expected(ls)[k], line)
  {
    var ls' := ls + [line];
    CaseHeadingsAppend(ls, line);
    var h := CaseHeadings(ls);
    var k := |h| - 1;
    assert CaseHeadings(ls') == h;
    ExpectedAt(ls, k);
    ExpectedAt(ls', k);
    CaseBetweenExtend(ls, line, h[k]);
  }

  /** A line that is not a `#### ` line can change only the last case, and absorbs into it. */
  lemma ExpectedAbsorbs(ls: seq<string>, line: string)
    requires !IsCaseHeading(line) && |Expected(ls)| > 0
    ensures var cs := Expected(ls);
      Expected(ls + [line]) == cs[..|cs| - 1] + [Absorb(cs[|cs| - 1], line)]
  {
    CaseHeadingsAppend(ls, line);
    var h := CaseHeadings(ls);
    var cs := Expected(ls);
    var cs' := Expected(ls + [line]);
    forall k | 0 <= k < |h| - 1
      ensures cs'[k] == cs[k]
    {
      CaseAtAppendClosed(ls, line, k);
    }
    CaseAtAppendOpen(ls, line);
    ReplaceLast(cs', cs, Absorb(cs[|cs| - 1], line));
  }

  /** A sequence that agrees with `b` except in its last element, which is `x`. */
  lemma ReplaceLast(a: seq<Case>, b: seq<Case>, x: Case)
    requires |a| == |b| > 0 && a[|a| - 1] == x
    requires forall k :: 0 <= k < |a| - 1 ==> a[k] == b[k]
    ensures a == b[..|b| - 1] + [x]
  {
  }

  /** Before the first `#### ` line nothing but such a line can create a case. */
  lemma NoCaseStaysEmpty(ls: seq<string>, line: string)
    requires Expected(ls) == [] && !IsCaseHeading(line)
    ensures Expected(ls + [line]) == []
  {
    CaseHeadingsAppend(ls, line);
  }

  /** A `#### ` line appends a fresh case that captures the major and medium items in force. */
  lemma ExpectedOpensCase(ls: seq<string>, line: string)
    requires IsCaseHeading(line)
    ensures Expected(ls + [line]) == Expected(ls) + [Case(Major(ls), Medium(ls), line[5..], [], [])]
  {
    var ls' := ls + [line];
    CaseHeadingsAppend(ls, line);
    var h := CaseHeadings(ls);
    forall k | 0 <= k < |h|
      ensures Expected(ls')[k] == Expected(ls)[k]
    {
      CaseAtAppendClosed(ls, line, k);
    }
    ExpectedAt(ls', |h|);
    assert ls'[..|ls|] == ls;
    assert ls'[|ls| + 1..|ls'|] == [];
  }

  // ---------------------------------------------------------------------------
  // Properties of the result
  // ---------------------------------------------------------------------------

  /**
   * Case `k` comes from the `k`-th `#### ` line: its minor item is that line's
   * raw remainder, its major and medium items are those in force when the line
   * was read, and its steps and checkpoints come from the lines up to the next
   * `#### ` line or the end of the document.
   */
  lemma ExpectedCase(ls: seq<string>, k: nat)
    requires k < |Expected(ls)|
    ensures var h := CaseHeadings(ls);
      var c := Expected(ls)[k];
      var body := ls[h[k] + 1..BodyEnd(h, k, |ls|)];
      && c.minorItem == ls[h[k]][5..]
      && c.majorItem == Major(ls[..h[k]]) && c.mediumItem == Medium(ls[..h[k]])
      && c.validationSteps == StepsIn(body) && c.checkpoints == CheckpointsIn(body)
  {
    ExpectedAt(ls, k);
  }

  /** A line that matches no rule changes neither the cases nor the items in force. */
  lemma UnmatchedLineChangesNothing(ls: seq<string>, line: string)
    requires !IsSection(line) && !IsCaseHeading(line)
    requires !IsOrderedItem(TrimSpace(line)) && !IsTaskItem(TrimSpace(line))
    ensures Expected(ls + [line]) == Expected(ls)
    ensures Major(ls + [line]) == Major(ls) && Medium(ls + [line]) == Medium(ls)
  {
    SectionAppend(ls, line);
    if Expected(ls) == [] {
      NoCaseStaysEmpty(ls, line);
    } else {
      ExpectedAbsorbs(ls, line);
      var cs := Expected(ls);
      assert cs == cs[..|cs| - 1] + [cs[|cs| - 1]];
    }
  }

  /** An indented line is no heading: the prefixes are matched before trimming. */
  lemma IndentedLineIsNoHeading(line: string)
    requires line != [] && line[0] == ' '
    ensures !IsSection(line) && !IsCaseHeading(line)
  {
  }

  /** A non-blank prefix keeps a trimmed non-empty string trimmed. */
  lemma PrefixTrimmed(p: string, s: string)
    requires p != [] && !IsSpace(p[0]) && s != [] && Trimmed(s)
    ensures TrimSpace(p + s) == p + s
  {
    var t := p + s;
    assert t[0] == p[0] && t[|t| - 1] == s[|s| - 1];
    TrimSpaceIdempotent(t);
  }

  /** One blank in front of a string that does not start with one is a blank run of length one. */
  lemma OneBlank(s: string)
    requires s != [] && !IsRegexSpace(s[0])
    ensures RegexSpaceRun(" " + s) == 1
  {
    assert (" " + s)[1..] == s;
  }

  /** `1. ` followed by a step: one digit, a dot, one blank, then the step. */
  lemma OrderedParts(step: string)
    requires step != [] && !IsSpace(step[0])
    ensures var t := "1. " + step;
      DigitRun(t) == 1 && t[1] == '.' && t[2..] == " " + step && RegexSpaceRun(t[2..]) == 1
  {
    var t := "1. " + step;
    assert t[1..][0] == '.';
    assert DigitRun(t[1..]) == 0;
    assert t[2..] == " " + step;
    OneBlank(step);
  }

  /** A trimmed `1. ` line is an ordered item whose step text is what follows the blank. */
  lemma OrderedLine(step: string)
    requires step != [] && Trimmed(step) && '\n' !in step
    ensures var t := "1. " + step;
      TrimSpace(t) == t && IsOrderedItem(t) && !IsTaskItem(t) && StepText(t) == step
  {
    var t := "1. " + step;
    PrefixTrimmed("1. ", step);
    OrderedParts(step);
    assert (" " + step)[1..] == step;
    UpToNewlineWhole(step);
  }

  /** `.*` captures the whole of a string without a line feed. */
  lemma {:induction false} UpToNewlineWhole(s: string)
    requires '\n' !in s
    ensures UpToNewline(s) == s
  {
    if s != [] {
      assert '\n' !in s[1..] by { assert forall k :: 0 <= k < |s| - 1 ==> s[1..][k] == s[k + 1]; }
      UpToNewlineWhole(s[1..]);
      assert [s[0]] + s[1..] == s;
    }
  }

  /** A trimmed `* [ ] ` line is a task item and no ordered item. */
  lemma TaskLine(check: string)
    requires check != [] && Trimmed(check)
    ensures var t := "* [ ] " + check;
      TrimSpace(t) == t && !IsOrderedItem(t) && IsTaskItem(t)
  {
    var t := "* [ ] " + check;
    PrefixTrimmed("* [ ] ", check);
    assert DigitRun(t) == 0;
    var rest := t[1..];
    assert rest == " " + ("[ ] " + check);
    OneBlank("[ ] " + check);
    assert rest[4..] == " " + check;
    OneBlank(check);
  }

  /** Only a lower-case `x` or a space marks a task item; an upper-case `X` does not. */
  lemma TaskMarkers()
    ensures IsTaskItem("* [ ] a") && IsTaskItem("* [x] a") && !IsTaskItem("* [X] a")
  {
    var t := "* [X] a";
    assert RegexSpaceRun(t[1..]) == 1;
    assert t[1..][2] == 'X';
    assert RegexSpaceRun("* [ ] a"[1..]) == 1;
    assert RegexSpaceRun("* [ ] a"[1..][4..]) == 1;
    assert RegexSpaceRun("* [x] a"[1..]) == 1;
    assert RegexSpaceRun("* [x] a"[1..][4..]) == 1;
  }

  /** An ordered item needs digits, a dot and at least one blank; a bullet is not one. */
  lemma OrderedMarkers()
    ensures IsOrderedItem("12. a") && !IsOrderedItem("12.a") && !IsOrderedItem("- a")
  {
    assert DigitRun("12. a") == 2;
    assert DigitRun("12.a") == 2;
    assert RegexSpaceRun("12.a"[3..]) == 0;
  }

  /** The step text starts after the whole run of blanks that follows the dot. */
  lemma StepTextSkipsBlanks()
    ensures IsOrderedItem("3. \t go") && StepText("3. \t go") == "go"
  {
    var u := "3. \t go";
    assert DigitRun(u) == 1;
    assert RegexSpaceRun("go") == 0;
    assert RegexSpaceRun(" go") == 1;
    assert RegexSpaceRun("\t go") == 2;
    assert u[2..] == " \t go";
    assert RegexSpaceRun(u[2..]) == 3;
    assert u[2..][3..] == "go";
    assert UpToNewline("go") == "go";
  }

  /** A numbered step line adds its step text to the case. */
  lemma AbsorbStep(c: Case, step: string)
    requires step != [] && Trimmed(step) && '\n' !in step
    ensures Absorb(c, "1. " + step) == c.(validationSteps := c.validationSteps + [step])
  {
    OrderedLine(step);
  }

  /** A checkbox line adds the whole trimmed line to the case's checkpoints. */
  lemma AbsorbCheck(c: Case, check: string)
    requires check != [] && Trimmed(check)
    ensures Absorb(c, "* [ ] " + check) == c.(checkpoints := c.checkpoints + ["* [ ] " + check])
  {
    TaskLine(check);
  }

  /** With a single case open, a line that is not a `#### ` line is absorbed into it. */
  lemma AbsorbSingle(ls: seq<string>, line: string, c: Case)
    requires Expected(ls) == [c] && !IsCaseHeading(line)
    ensures Expected(ls + [line]) == [Absorb(c, line)]
  {
    ExpectedAbsorbs(ls, line);
  }

  /** Three heading lines open one empty case that carries the three items. */
  lemma HeadingLines(ls: seq<string>, major: string, medium: string, minor: string)
    requires |ls| == 3 && ls[0] == "## " + major && ls[1] == "### " + medium && ls[2] == "#### " + minor
    ensures Expected(ls) == [Case(major, medium, minor, [], [])]
  {
    var a, b, c := ls[0], ls[1], ls[2];
    assert a[3..] == major && b[4..] == medium && c[5..] == minor;
    assert IsMajorHeading(a);
    assert !IsCaseHeading(a) by { assert a[2] == ' '; }
    assert IsMediumHeading(b);
    assert !IsMajorHeading(b) && !IsCaseHeading(b) by { assert b[2] == '#' && b[3] == ' '; }
    assert IsCaseHeading(c);
    assert ls[..1] == [] + [a];
    NoCaseStaysEmpty([], a);
    SectionAppend([], a);
    assert ls[..2] == ls[..1] + [b];
    NoCaseStaysEmpty(ls[..1], b);
    SectionAppend(ls[..1], b);
    ExpectedOpensCase(ls[..2], c);
    assert ls == ls[..2] + [c];
  }

  /**
   * A document of a `## `, a `### ` and a `#### ` line followed by one
   * numbered step and one open checkbox yields exactly one case carrying the
   * three items, the step text and the whole checkbox line.
   */
  lemma WorkedDocument(ls: seq<string>, major: string, medium: string, minor: string, step: string, check: string)
    requires |ls| == 5 && ls[0] == "## " + major && ls[1] == "### " + medium && ls[2] == "#### " + minor
    requires ls[3] == "1. " + step && ls[4] == "* [ ] " + check
    requires step != [] && Trimmed(step) && '\n' !in step
    requires check != [] && Trimmed(check)
    ensures Expected(ls) == [Case(major, medium, minor, [step], [ls[4]])]
  {
    var d, e := ls[3], ls[4];
    HeadingLines(ls[..3], major, medium, minor);
    var empty := Case(major, medium, minor, [], []);
    var withStep := Case(major, medium, minor, [step], []);
    assert !IsCaseHeading(d) by { assert d[0] == '1'; }
    assert !IsCaseHeading(e) by { assert e[0] == '*'; }
    assert ls[..4] == ls[..3] + [d];
    AbsorbSingle(ls[..3], d, empty);
    AbsorbStep(empty, step);
    assert [] + [step] == [step];
    assert Expected(ls[..4]) == [withStep];
    AbsorbSingle(ls[..4], e, withStep);
    AbsorbCheck(withStep, check);
    assert [] + [e] == [e];
    assert ls == ls[..4] + [e];
  }

  // ---------------------------------------------------------------------------
  // The scan loop
  // ---------------------------------------------------------------------------

  function OpenCase(current: Option<Case>): seq<Case> {
    if current.Some? then [current.value] else []
  }

  /**
   * The state of the scan after the lines `ls`: the items in force, the
   * closed cases and the open one, which together are the declarative result.
   */
  ghost predicate Scanned(ls: seq<string>, major: string, medium: string, cases: seq<Case>, current: Option<Case>) {
    && major == Major(ls) && medium == Medium(ls)
    && (current.None? <==> Expected(ls) == [])
    && cases + OpenCase(current) == Expected(ls)
  }

  /** A `## ` line sets the major item and clears the medium item; the cases stay as they are. */
  lemma MajorStep(lines: seq<string>, i: nat, major: string, medium: string, cases: seq<Case>, current: Option<Case>)
    requires i < |lines| && IsMajorHeading(lines[i]) && Scanned(lines[..i], major, medium, cases, current)
    ensures Scanned(lines[..i + 1], lines[i][3..], "", cases, current)
  {
    NextPrefix(lines, i);
    SectionAppend(lines[..i], lines[i]);
    SectionKeepsCases(lines[..i], lines[i], cases, current);
  }

  /** A `### ` line sets the medium item; the cases stay as they are. */
  lemma MediumStep(lines: seq<string>, i: nat, major: string, medium: string, cases: seq<Case>, current: Option<Case>)
    requires i < |lines| && !IsMajorHeading(lines[i]) && IsMediumHeading(lines[i])
    requires Scanned(lines[..i], major, medium, cases, current)
    ensures Scanned(lines[..i + 1], major, lines[i][4..], cases, current)
  {
    NextPrefix(lines, i);
    SectionAppend(lines[..i], lines[i]);
    SectionKeepsCases(lines[..i], lines[i], cases, current);
  }

  lemma SectionKeepsCases(ls: seq<string>, line: string, cases: seq<Case>, current: Option<Case>)
    requires IsSection(line)
    requires (current.None? <==> Expected(ls) == []) && cases + OpenCase(current) == Expected(ls)
    ensures (current.None? <==> Expected(ls + [line]) == []) && cases + OpenCase(current) == Expected(ls + [line])
  {
    HeadingsExclusive(line);
    SectionIsNotItem(line);
    if current.Some? {
      ExpectedAbsorbs(ls, line);
      assert cases == Expected(ls)[..|Expected(ls)| - 1];
    } else {
      NoCaseStaysEmpty(ls, line);
    }
  }

  /** A `#### ` line closes the open case and opens a new one under the items in force. */
  lemma CaseStep(lines: seq<string>, i: nat, major: string, medium: string, cases: seq<Case>, current: Option<Case>)
    requires i < |lines| && !IsSection(lines[i]) && IsCaseHeading(lines[i])
    requires Scanned(lines[..i], major, medium, cases, current)
    ensures Scanned(lines[..i + 1], major, medium, cases + OpenCase(current), Some(Case(major, medium, lines[i][5..], [], [])))
  {
    NextPrefix(lines, i);
    SectionAppend(lines[..i], lines[i]);
    ExpectedOpensCase(lines[..i], lines[i]);
  }

  /** Any other line is absorbed into the open case, if there is one. */
  lemma LineStep(lines: seq<string>, i: nat, major: string, medium: string, cases: seq<Case>, current: Option<Case>)
    requires i < |lines| && !IsSection(lines[i]) && !IsCaseHeading(lines[i])
    requires Scanned(lines[..i], major, medium, cases, current)
    ensures Scanned(lines[..i + 1], major, medium, cases, if current.Some? then Some(Absorb(current.value, lines[i])) else None)
  {
    var ls := lines[..i];
    NextPrefix(lines, i);
    SectionAppend(ls, lines[i]);
    if current.Some? {
      ExpectedAbsorbs(ls, lines[i]);
      assert cases == Expected(ls)[..|Expected(ls)| - 1];
    } else {
      NoCaseStaysEmpty(ls, lines[i]);
    }
  }

  lemma NextPrefix(lines: seq<string>, i: nat)
    requires i < |lines|
    ensures lines[..i + 1] == lines[..i] + [lines[i]]
  {
  }

  /**
   * `Parse`: reads every line, keeping the major item, the medium item and the
   * open case, and returns the collected cases, or the read failure alone.
   */
  method Parse(input: Stream) returns (r: Result<seq<Case>, ReadError>)
    ensures input.failure.Some? ==> r == Err(input.failure.value)
    ensures input.failure.None? ==> r == Ok(Expected(input.lines))
  {
    var lines := input.lines;
    var cases: seq<Case> := [];
    var current: Option<Case> := None;
    var major, medium := "", "";
    for i := 0 to |lines|
      invariant Scanned(lines[..i], major, medium, cases, current)
    {
      var line := lines[i];
      var trimmed := TrimSpace(line);
      if HasPrefix(line, "## ") {
        MajorStep(lines, i, major, medium, cases, current);
        major := line[3..];
        medium := "";
      } else if HasPrefix(line, "### ") {
        MediumStep(lines, i, major, medium, cases, current);
        medium := line[4..];
      } else if HasPrefix(line, "#### ") {
        CaseStep(lines, i, major, medium, cases, current);
        cases := cases + OpenCase(current);
        current := Some(Case(major, medium, line[5..], [], []));
      } else {
        LineStep(lines, i, major, medium, cases, current);
        ghost var absorbed := if current.Some? then Some(Absorb(current.value, line)) else None;
        if IsOrderedItem(trimmed) && current.Some? {
          current := Some(current.value.(validationSteps := current.value.validationSteps + [StepText(trimmed)]));
        } else if IsTaskItem(trimmed) && current.Some? {
          current := Some(current.value.(checkpoints := current.value.checkpoints + [trimmed]));
        }
        assert current == absorbed;
      }
    }
    assert lines[..|lines|] == lines;
    cases := cases + OpenCase(current);
    if input.failure.Some? {
      return Err(input.failure.value);
    }
    return Ok(cases);
  }

}
