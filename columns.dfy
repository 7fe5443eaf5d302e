/**
 * Spreadsheet column letters: bijective base 26 over `A`..`Z` (1 is `A`,
 * 26 is `Z`, 27 is `AA`), and cell references such as `AB12` made of the
 * column letters followed by the decimal row number.
 */
module Columns {
  import opened Results
  import opened Text

  predicate IsLetter(c: char) {
    'A' <= c <= 'Z'
  }

  predicate AllLetters(s: string) {
    forall k :: 0 <= k < |s| ==> IsLetter(s[k])
  }

  /** The letter for digit `d` of bijective base 26: 0 is `A`, 25 is `Z`. */
  function Letter(d: nat): (c: char)
    requires d < 26
    ensures IsLetter(c)
  {
    (65 + d) as char
  }

  /** The letters of column `n` (1-based); no letters for 0. */
  function Letters(n: nat): (s: string)
    ensures AllLetters(s)
    ensures (s == []) == (n == 0)
  {
    if n == 0 then [] else Letters((n - 1) / 26) + [Letter((n - 1) % 26)]
  }

  /** The column number a string of letters denotes. */
  function LettersValue(s: string): nat
    requires AllLetters(s)
  {
    if s == [] then 0 else 26 * LettersValue(s[..|s| - 1]) + ((s[|s| - 1] as int) - 64)
  }

  /** Reading the letters of a column back gives the column. */
  lemma {:induction false} LettersRoundTrip(n: nat)
    ensures LettersValue(Letters(n)) == n
  {
    if n > 0 {
      LettersRoundTrip((n - 1) / 26);
      var s := Letters(n);
      assert s[..|s| - 1] == Letters((n - 1) / 26);
    }
  }

  /** Every string of letters is the lettering of exactly the column it denotes. */
  lemma {:induction false} LettersOnto(s: string)
    requires AllLetters(s)
    ensures Letters(LettersValue(s)) == s
  {
    if s != [] {
      var init := s[..|s| - 1];
      var d := (s[|s| - 1] as int) - 65;
      LettersOnto(init);
      var v := LettersValue(s);
      assert v - 1 == 26 * LettersValue(init) + d;
      assert (v - 1) / 26 == LettersValue(init);
      assert (v - 1) % 26 == d;
      assert Letter(d) == s[|s| - 1];
      assert init + [s[|s| - 1]] == s;
    }
  }

  /** Distinct columns get distinct letters. */
  lemma LettersInjective(m: nat, n: nat)
    requires Letters(m) == Letters(n)
    ensures m == n
  {
    LettersRoundTrip(m);
    LettersRoundTrip(n);
  }

  /** `columnName`: the letters of column `n`, and `A` for a column below 1. */
  function ColumnLetters(n: int): (s: string)
    ensures s != [] && AllLetters(s)
  {
    if n <= 0 then "A" else Letters(n)
  }

  /**
   * `columnName`: repeatedly takes one off, puts the letter for the remainder
   * modulo 26 in front and divides by 26.
   */
  method ColumnName(n: int) returns (result: string)
    ensures result == ColumnLetters(n)
  {
    if n <= 0 {
      return "A";
    }
    var m: nat := n;
    result := "";
    while m > 0
      invariant Letters(m) + result == Letters(n)
      decreases m
    {
      m := m - 1;
      result := [Letter(m % 26)] + result;
      m := m / 26;
    }
  }

  /** The fixed points the column lettering is known by. */
  lemma ColumnLettersExamples()
    ensures ColumnLetters(1) == "A" && ColumnLetters(26) == "Z"
    ensures ColumnLetters(27) == "AA" && ColumnLetters(28) == "AB"
    ensures ColumnLetters(52) == "AZ" && ColumnLetters(53) == "BA"
    ensures ColumnLetters(0) == "A" && ColumnLetters(-3) == "A"
  {
    assert Letters(1) == "A";
    assert Letters(2) == "B";
  }

  // ---------------------------------------------------------------------------
  // Cell references
  // ---------------------------------------------------------------------------

  /** The reference of the cell in column `col` and row `row`, both 1-based: `B3` and so on. */
  function CellRef(col: nat, row: nat): (r: string)
    requires col >= 1
  {
    Letters(col) + Decimal(row)
  }

  /** Number of letters at the front of `s`. */
  function LetterRun(s: string): (n: nat)
    ensures n <= |s|
    ensures forall k :: 0 <= k < n ==> IsLetter(s[k])
    ensures n < |s| ==> !IsLetter(s[n])
  {
    if s != [] && IsLetter(s[0]) then 1 + LetterRun(s[1..]) else 0
  }

  /** Reads a cell reference back into its column and row, when it is one. */
  function ParseCellRef(r: string): Option<(nat, nat)>
  {
    var n := LetterRun(r);
    if 0 < n < |r| && AllDigits(r[n..]) then Some((LettersValue(r[..n]), DecimalValue(r[n..]))) else None
  }

  /** A cell reference reads back as the column and row it was made from. */
  lemma CellRefRoundTrip(col: nat, row: nat)
    requires col >= 1
    ensures ParseCellRef(CellRef(col, row)) == Some((col, row))
  {
    var l := Letters(col);
    var d := Decimal(row);
    var r := l + d;
    assert LetterRun(r) == |l| by {
      assert forall k :: 0 <= k < |l| ==> r[k] == l[k];
      assert r[|l|] == d[0];
      assert !IsLetter(d[0]);
    }
    assert r[..|l|] == l;
    assert r[|l|..] == d;
    LettersRoundTrip(col);
    DecimalRoundTrip(row);
  }

  /** Two cells have the same reference only when they are the same cell. */
  lemma CellRefInjective(c1: nat, r1: nat, c2: nat, r2: nat)
    requires c1 >= 1 && c2 >= 1 && CellRef(c1, r1) == CellRef(c2, r2)
    ensures c1 == c2 && r1 == r2
  {
    CellRefRoundTrip(c1, r1);
    CellRefRoundTrip(c2, r2);
  }

}
