/**
 * Worksheet names. A workbook sheet name has at most 31 characters and none
 * of `* : ? [ ] / \`. A name is derived from the source file name (its last
 * path element without its extension), cleaned, and made unique within the
 * workbook by a registry that appends `_2`, `_3`, ... to a name already taken.
 */
module SheetNames {
  import opened Text

  /** The longest sheet name a workbook accepts. */
  const MaxSheetName := 31

  // ---------------------------------------------------------------------------
  // Path elements (`/`-separated paths)
  // ---------------------------------------------------------------------------

  /** The part of `s` after the last `c`: all of `s` when it holds no `c`. */
  function AfterLast(s: string, c: char): (r: string)
    ensures c !in r
    ensures |r| <= |s| && r == s[|s| - |r|..]
    ensures |r| < |s| ==> s[|s| - |r| - 1] == c
  {
    if s == [] then []
    else if s[|s| - 1] == c then []
    else AfterLast(s[..|s| - 1], c) + [s[|s| - 1]]
  }

  /** Whatever precedes the last `c`, the part after it is what follows. */
  lemma {:induction false} AfterLastSplit(x: string, c: char, y: string)
    requires c !in y
    ensures AfterLast(x + [c] + y, c) == y
  {
    if y != [] {
      var s := x + [c] + y;
      assert s[..|s| - 1] == x + [c] + y[..|y| - 1];
      AfterLastSplit(x, c, y[..|y| - 1]);
      assert y[..|y| - 1] + [y[|y| - 1]] == y;
    } else {
      assert (x + [c] + y)[|x|] == c;
    }
  }

  /** A string free of `c` is its own part after the last `c`. */
  lemma {:induction false} AfterLastNone(y: string, c: char)
    requires c !in y
    ensures AfterLast(y, c) == y
  {
    if y != [] {
      AfterLastNone(y[..|y| - 1], c);
      assert y[..|y| - 1] + [y[|y| - 1]] == y;
    }
  }

  /** `s` without its trailing slashes. */
  function DropTrailingSlashes(s: string): (r: string)
    ensures |r| <= |s| && r == s[..|r|]
    ensures r == [] || r[|r| - 1] != '/'
  {
    if s != [] && s[|s| - 1] == '/' then DropTrailingSlashes(s[..|s| - 1]) else s
  }

  /** `filepath.Base` with `/` as the only separator. */
  function Base(path: string): (r: string)
    ensures r != []
  {
    if path == [] then "."
    else
      var p := DropTrailingSlashes(path);
      if p == [] then "/" else AfterLast(p, '/')
  }

  /** `filepath.Ext`: from the last dot of the last path element on, or "" when it has none. */
  function Ext(path: string): (r: string)
    ensures |r| <= |path| && r == path[|path| - |r|..]
    ensures r == [] || r[0] == '.'
  {
    var element := AfterLast(path, '/');
    if '.' in element then
      var after := AfterLast(element, '.');
      assert |after| < |element|;
      element[|element| - |after| - 1..]
    else []
  }

  /** `strings.TrimSuffix(base, filepath.Ext(base))`: the name without its extension. */
  function Stem(base: string): string
  {
    base[..|base| - |Ext(base)|]
  }

  // ---------------------------------------------------------------------------
  // Cleaning
  // ---------------------------------------------------------------------------

  /** Characters a sheet name may not contain. */
  predicate IsForbidden(c: char) {
    c == '*' || c == ':' || c == '?' || c == '[' || c == ']' || c == '/' || c == '\\'
  }

  /** A name Excel accepts for a sheet: at most 31 characters, none of them forbidden. */
  predicate IsLegalSheetName(r: string) {
    |r| <= MaxSheetName && forall k :: 0 <= k < |r| ==> !IsForbidden(r[k])
  }

  /** The replacer: every forbidden character becomes `_`. */
  function ReplaceForbidden(s: string): (r: string)
    ensures |r| == |s|
    ensures forall k :: 0 <= k < |s| ==> r[k] == if IsForbidden(s[k]) then '_' else s[k]
  {
    seq(|s|, k requires 0 <= k < |s| => if IsForbidden(s[k]) then '_' else s[k])
  }

  /** Number of blanks (`' '` only) at the front of `s`. */
  function LeadingBlanks(s: string): (n: nat)
    ensures n <= |s|
    ensures forall k :: 0 <= k < n ==> s[k] == ' '
    ensures n < |s| ==> s[n] != ' '
  {
    if s != [] && s[0] == ' ' then 1 + LeadingBlanks(s[1..]) else 0
  }

  /** Number of blanks at the back of `s`. */
  function TrailingBlanks(s: string): (n: nat)
    ensures n <= |s|
    ensures forall k :: |s| - n <= k < |s| ==> s[k] == ' '
    ensures n < |s| ==> s[|s| - 1 - n] != ' '
  {
    if s != [] && s[|s| - 1] == ' ' then 1 + TrailingBlanks(s[..|s| - 1]) else 0
  }

  /** `strings.Trim(s, " ")`: blanks removed at both ends, other whitespace kept. */
  function TrimBlanks(s: string): (r: string)
    ensures r == [] || (r[0] != ' ' && r[|r| - 1] != ' ')
  {
    var rest := s[LeadingBlanks(s)..];
    rest[..|rest| - TrailingBlanks(rest)]
  }

  /** Trimming leaves nothing exactly when there was nothing but blanks. */
  lemma TrimBlanksEmpty(s: string)
    ensures TrimBlanks(s) == [] <==> forall k :: 0 <= k < |s| ==> s[k] == ' '
  {
    var i := LeadingBlanks(s);
    var rest := s[i..];
    if i < |s| {
      assert rest[0] != ' ';
      assert TrailingBlanks(rest) < |rest|;
    }
  }

  /** Trimming keeps a middle part of the string. */
  lemma TrimBlanksInfix(s: string)
    ensures exists i, j :: 0 <= i <= j <= |s| && TrimBlanks(s) == s[i..j]
  {
    var i := LeadingBlanks(s);
    var rest := s[i..];
    var j := i + |rest| - TrailingBlanks(rest);
    assert TrimBlanks(s) == s[i..j];
  }

  /** `utf8.RuneCountInString(v) <= limit` returns `v`, otherwise its first `limit` characters; a limit below 1 keeps everything. */
  function TakeRunes(v: string, limit: int): (r: string)
    ensures HasPrefix(v, r)
    ensures 0 < limit ==> |r| <= limit
    ensures |r| < |v| ==> |r| == limit
  {
    if limit <= 0 || |v| <= limit then v else v[..limit]
  }

  /**
   * `trimRunes`: copies characters until `limit` of them are copied; when the
   * whole value fits it is returned as it is.
   */
  method TrimRunes(value: string, limit: int) returns (r: string)
    ensures r == TakeRunes(value, limit)
  {
    if |value| <= limit {
      return value;
    }
    r := "";
    var count := 0;
    var i := 0;
    while i < |value|
      invariant 0 <= i <= |value| && count == i
      invariant r == value[..i]
      invariant 0 < limit ==> count < limit
    {
      r := r + [value[i]];
      count := count + 1;
      i := i + 1;
      if count == limit {
        break;
      }
    }
    assert i == |value| ==> value[..i] == value;
  }

  /** The cleaned name: forbidden characters replaced, blanks trimmed, cut to 31 characters. */
  function Sanitized(name: string): string
  {
    var cleaned := TrimBlanks(ReplaceForbidden(name));
    if |cleaned| <= MaxSheetName then cleaned else cleaned[..MaxSheetName]
  }

  /**
   * `sanitizeSheetName`: replaces, trims, and when the result is longer than
   * 31 characters copies the first 31 of them.
   */
  method SanitizeSheetName(name: string) returns (r: string)
    ensures r == Sanitized(name)
  {
    var cleaned := ReplaceForbidden(name);
    cleaned := TrimBlanks(cleaned);
    if cleaned == "" {
      return "";
    }
    if |cleaned| <= MaxSheetName {
      return cleaned;
    }
    r := "";
    var count := 0;
    while count < MaxSheetName
      invariant 0 <= count <= MaxSheetName
      invariant r == cleaned[..count]
    {
      r := r + [cleaned[count]];
      count := count + 1;
    }
  }

  /**
   * What cleaning guarantees: at most 31 characters, none forbidden, no blank
   * in front, a prefix of the replaced and trimmed name, and empty only when
   * the name held nothing but blanks.
   */
  lemma SanitizedIsLegal(name: string)
    ensures var r := Sanitized(name);
      && |r| <= MaxSheetName
      && (forall k :: 0 <= k < |r| ==> !IsForbidden(r[k]))
      && (r == [] || r[0] != ' ')
      && HasPrefix(TrimBlanks(ReplaceForbidden(name)), r)
      && (r == [] <==> forall k :: 0 <= k < |name| ==> name[k] == ' ')
  {
    var replaced := ReplaceForbidden(name);
    var cleaned := TrimBlanks(replaced);
    TrimBlanksInfix(replaced);
    TrimBlanksEmpty(replaced);
    var r := Sanitized(name);
    forall k | 0 <= k < |r|
      ensures !IsForbidden(r[k])
    {
      assert r[k] == cleaned[k];
    }
    if forall k :: 0 <= k < |replaced| ==> replaced[k] == ' ' {
      forall k | 0 <= k < |name| ensures name[k] == ' ' {
        assert replaced[k] == ' ';
      }
    }
  }

  /** `fmt.Sprintf("%d", i)`. */
  function FormatInt(i: int): (s: string)
    ensures s != [] && '_' !in s
  {
    if i < 0 then "-" + Decimal(-i) else Decimal(i)
  }

  /** `%d` writes only digits and a minus sign, none of them forbidden in a sheet name. */
  lemma FormatIntLegal(i: int)
    ensures forall k :: 0 <= k < |FormatInt(i)| ==> !IsForbidden(FormatInt(i)[k])
  {
    var s := FormatInt(i);
    forall k | 0 <= k < |s|
      ensures !IsForbidden(s[k])
    {
      if i < 0 && k > 0 {
        assert s[k] == Decimal(-i)[k - 1];
      }
    }
  }

  /** For positive numbers, a larger one never has fewer characters. */
  lemma FormatIntLengthMonotone(m: int, n: int)
    requires 0 <= m <= n
    ensures |FormatInt(m)| <= |FormatInt(n)|
  {
    DecimalLengthMonotone(m, n);
  }

  lemma FormatIntInjective(m: int, n: int)
    requires FormatInt(m) == FormatInt(n)
    ensures m == n
  {
    assert (FormatInt(m)[0] == '-') == (m < 0);
    assert (FormatInt(n)[0] == '-') == (n < 0);
    if m < 0 {
      assert FormatInt(m)[1..] == Decimal(-m);
      assert FormatInt(n)[1..] == Decimal(-n);
      DecimalInjective(-m, -n);
    } else {
      DecimalInjective(m, n);
    }
  }

  /** `deriveSheetName`: the cleaned stem of the file name, or `Sheet{index+1}` when that is empty. */
  function DeriveSheetName(name: string, index: int): (r: string)
    ensures r != []
  {
    var fallback := "Sheet" + FormatInt(index + 1);
    if name == [] then fallback
    else
      var sanitized := Sanitized(Stem(Base(name)));
      if sanitized == [] then fallback else sanitized
  }

  /**
   * A derived name is the cleaned stem, which is always legal, or the
   * `Sheet{n}` fallback, which is legal while `n` has at most 26 characters.
   */
  lemma DerivedNameIsLegal(name: string, index: int)
    ensures var r := DeriveSheetName(name, index);
      && (r == "Sheet" + FormatInt(index + 1) || IsLegalSheetName(r))
      && (|FormatInt(index + 1)| <= 26 ==> IsLegalSheetName(r))
  {
    if name != [] {
      SanitizedIsLegal(Stem(Base(name)));
    }
    FallbackName(index + 1);
  }

  /** `Sheet{n}` has no forbidden character and is five characters longer than `n`. */
  lemma FallbackName(n: int)
    ensures var fallback := "Sheet" + FormatInt(n);
      && |fallback| == 5 + |FormatInt(n)|
      && forall k :: 0 <= k < |fallback| ==> !IsForbidden(fallback[k])
  {
    var digits := FormatInt(n);
    var fallback := "Sheet" + digits;
    FormatIntLegal(n);
    forall k | 0 <= k < |fallback|
      ensures !IsForbidden(fallback[k])
    {
      if k >= 5 {
        assert fallback[k] == digits[k - 5];
      }
    }
  }

  /** The last element of a path that ends in a file name free of slashes is that file name. */
  lemma BaseOfFile(dir: string, file: string)
    requires dir == [] || dir[|dir| - 1] == '/'
    requires file != [] && '/' !in file
    ensures Base(dir + file) == file
  {
    var path := dir + file;
    assert path[|path| - 1] == file[|file| - 1];
    assert DropTrailingSlashes(path) == path;
    if dir == [] {
      assert path == file;
      AfterLastNone(file, '/');
    } else {
      assert path == dir[..|dir| - 1] + ['/'] + file;
      AfterLastSplit(dir[..|dir| - 1], '/', file);
    }
  }

  /** A file name with one dot loses what follows the dot, and the dot. */
  lemma StemOfFile(stem: string, ext: string)
    requires '/' !in stem && '/' !in ext && '.' !in ext
    ensures Stem(stem + "." + ext) == stem
  {
    var file := stem + ['.'] + ext;
    assert stem + "." + ext == file;
    AfterLastNone(file, '/');
    AfterLastSplit(stem, '.', ext);
    var e := Ext(file);
    assert e == file[|stem|..];
  }

  /** A name already legal comes through cleaning unchanged. */
  lemma SanitizedLegalName(name: string)
    requires name != [] && |name| <= MaxSheetName && name[0] != ' ' && name[|name| - 1] != ' '
    requires forall k :: 0 <= k < |name| ==> !IsForbidden(name[k])
    ensures Sanitized(name) == name
  {
    assert ReplaceForbidden(name) == name;
    assert LeadingBlanks(name) == 0;
    assert TrailingBlanks(name) == 0;
  }

  /**
   * A file in any directory with a legal stem and a one-dot extension names
   * its sheet after the stem: `cases/alpha.md` gives `alpha`.
   */
  lemma DeriveFromFileName(dir: string, stem: string, ext: string, index: int)
    requires dir == [] || dir[|dir| - 1] == '/'
    requires stem != [] && |stem| <= MaxSheetName && stem[0] != ' ' && stem[|stem| - 1] != ' '
    requires forall k :: 0 <= k < |stem| ==> !IsForbidden(stem[k])
    requires '/' !in ext && '.' !in ext
    ensures DeriveSheetName(dir + (stem + "." + ext), index) == stem
  {
    var file := stem + "." + ext;
    assert '/' !in stem by {
      forall k | 0 <= k < |stem| ensures stem[k] != '/' { assert !IsForbidden(stem[k]); }
    }
    BaseOfFile(dir, file);
    StemOfFile(stem, ext);
    SanitizedLegalName(stem);
  }

  /** `buildSheetNameWithSuffix`: the base, cut to leave room for `_{count}`, then the suffix. */
  function SuffixedName(base: string, count: int): (r: string)
  {
    var suffix := "_" + FormatInt(count);
    var maxBase := if MaxSheetName - |suffix| < 1 then 1 else MaxSheetName - |suffix|;
    TakeRunes(base, maxBase) + suffix
  }

  /** A suffixed name fits in 31 characters whenever its suffix leaves room for one character of the base. */
  lemma SuffixedNameFits(base: string, count: int)
    requires |FormatInt(count)| <= 29
    ensures |SuffixedName(base, count)| <= MaxSheetName
    ensures HasPrefix(base, SuffixedName(base, count)[..|SuffixedName(base, count)| - |FormatInt(count)| - 1])
  {
  }

  /** A base free of forbidden characters gives a legal suffixed name while the suffix leaves room. */
  lemma SuffixedNameLegal(base: string, count: int)
    requires |FormatInt(count)| <= 29
    requires forall k :: 0 <= k < |base| ==> !IsForbidden(base[k])
    ensures IsLegalSheetName(SuffixedName(base, count))
  {
    var digits := FormatInt(count);
    var maxBase := if MaxSheetName - |"_" + digits| < 1 then 1 else MaxSheetName - |"_" + digits|;
    var kept := TakeRunes(base, maxBase);
    var r := SuffixedName(base, count);
    assert r == kept + ("_" + digits);
    FormatIntLegal(count);
    forall k | 0 <= k < |r|
      ensures !IsForbidden(r[k])
    {
      if k < |kept| {
        assert r[k] == base[k];
      } else if k > |kept| {
        assert r[k] == digits[k - |kept| - 1];
      }
    }
  }

  /** Different counts give different suffixed names, whatever the base. */
  lemma SuffixedNameInjective(base: string, m: int, n: int)
    requires SuffixedName(base, m) == SuffixedName(base, n)
    ensures m == n
  {
    var sm := FormatInt(m);
    var sn := FormatInt(n);
    var maxM := if MaxSheetName - |"_" + sm| < 1 then 1 else MaxSheetName - |"_" + sm|;
    var maxN := if MaxSheetName - |"_" + sn| < 1 then 1 else MaxSheetName - |"_" + sn|;
    assert SuffixedName(base, m) == TakeRunes(base, maxM) + ['_'] + sm;
    assert SuffixedName(base, n) == TakeRunes(base, maxN) + ['_'] + sn;
    AfterLastSplit(TakeRunes(base, maxM), '_', sm);
    AfterLastSplit(TakeRunes(base, maxN), '_', sn);
    FormatIntInjective(m, n);
  }

  // ---------------------------------------------------------------------------
  // The registry of names already given
  // ---------------------------------------------------------------------------

  /**
   * What one call of `ensureUniqueSheetName` does to the usage counters `u`
   * and the set `f` of names given out: a base not yet given out is given as
   * it is and its counter becomes at least 1; otherwise the name is the first
   * `base_{c}` not yet given out with `c` above the base's counter, and the
   * counter becomes `c`.
   */
  ghost predicate Registers(u: map<string, int>, f: set<string>, base: string,
                      name: string, u': map<string, int>, f': set<string>)
  {
    var count := if base in u then u[base] else 0;
    && f' == f + {name}
    && if base !in f then
         name == base && u' == u[base := if count > 1 then count else 1]
       else
         exists c :: && count < c && name == SuffixedName(base, c) && name !in f
                     && (forall n :: count < n < c ==> SuffixedName(base, n) in f)
                     && u' == u[base := c]
  }

  /** A registration gives out a name not given before and adds exactly that name. */
  lemma RegistersFreshName(u: map<string, int>, f: set<string>, base: string,
                           name: string, u': map<string, int>, f': set<string>)
    requires Registers(u, f, base, name, u', f')
    ensures name !in f && f' == f + {name} && |f'| == |f| + 1
  {
  }

  /** The registry's outcome is determined by its state and the base. */
  lemma RegistersDeterministic(u: map<string, int>, f: set<string>, base: string,
                               n1: string, u1: map<string, int>, f1: set<string>,
                               n2: string, u2: map<string, int>, f2: set<string>)
    requires Registers(u, f, base, n1, u1, f1) && Registers(u, f, base, n2, u2, f2)
    ensures n1 == n2 && u1 == u2 && f1 == f2
  {
    if base in f {
      var count := if base in u then u[base] else 0;
      var c1 :| count < c1 && n1 == SuffixedName(base, c1) && n1 !in f
        && (forall n :: count < n < c1 ==> SuffixedName(base, n) in f) && u1 == u[base := c1];
      var c2 :| count < c2 && n2 == SuffixedName(base, c2) && n2 !in f
        && (forall n :: count < n < c2 ==> SuffixedName(base, n) in f) && u2 == u[base := c2];
      assert c1 == c2;
    }
  }

  /** Sources `alpha.md`, `alpha.md`, `beta.md` get the sheets `alpha`, `alpha_2`, `beta`. */
  lemma RegistersAlphaAlphaBeta(alpha: string, beta: string,
                                n1: string, u1: map<string, int>, f1: set<string>,
                                n2: string, u2: map<string, int>, f2: set<string>,
                                n3: string, u3: map<string, int>, f3: set<string>)
    requires |alpha| <= 29 && alpha != beta && beta != SuffixedName(alpha, 2)
    requires Registers(map[], {}, alpha, n1, u1, f1)
    requires Registers(u1, f1, alpha, n2, u2, f2)
    requires Registers(u2, f2, beta, n3, u3, f3)
    ensures n1 == alpha && n2 == SuffixedName(alpha, 2) && n3 == beta
  {
    assert n1 == alpha && u1 == map[alpha := 1] && f1 == {alpha};
    var c :| 1 < c && n2 == SuffixedName(alpha, c) && n2 !in f1
      && (forall n :: 1 < n < c ==> SuffixedName(alpha, n) in f1) && u2 == u1[alpha := c];
    assert FormatInt(2) == "2";
    assert |SuffixedName(alpha, 2)| == |alpha| + 2;
    assert c == 2;
  }

  /**
   * The two maps `ensureUniqueSheetName` threads through one conversion: how
   * far each base has been numbered, and the names already given out.
   */
  class NameRegistry {
    var usage: map<string, int>
    var final: set<string>

    constructor ()
      ensures usage == map[] && final == {}
    {
      usage := map[];
      final := {};
    }

    /**
     * `ensureUniqueSheetName`: the base itself when it is free, otherwise the
     * first free `base_{c}` counting up from the base's counter.
     */
    method EnsureUnique(base: string) returns (name: string)
      modifies this
      ensures Registers(old(usage), old(final), base, name, usage, final)
    {
      var count := if base in usage then usage[base] else 0;
      if base !in final {
        RegistersBase(usage, final, base);
        usage := usage[base := if count > 1 then count else 1];
        final := final + {base};
        return base;
      }
      ghost var count0 := count;
      while true
        invariant count0 <= count
        invariant Candidates(base, count0, count) <= final
        invariant usage == old(usage) && final == old(final)
        decreases |final - Candidates(base, count0, count)|
      {
        count := count + 1;
        var candidate := SuffixedName(base, count);
        if candidate in final {
          CandidateIsNew(base, count0, count);
          FewerUnseen(final, Candidates(base, count0, count - 1), candidate);
          continue;
        }
        CandidatesTaken(base, count0, count - 1, final);
        RegistersSuffixed(usage, final, base, count);
        usage := usage[base := count];
        final := final + {candidate};
        return candidate;
      }
    }
  }

  /**
   * The registry keeps every base it has counted among the names given out,
   * with a counter of at least 1, together with the suffixed names of every count from 2 up to its counter.
   */
  ghost predicate Numbered(u: map<string, int>, f: set<string>) {
    forall b :: b in u ==> b in f && 1 <= u[b] && forall n :: 1 < n <= u[b] ==> SuffixedName(b, n) in f
  }

  /**
   * A registration keeps the registry numbered, and the name it gives is the
   * base or the base suffixed with a count of at most two more than the
   * number of names given before, so the counts grow no faster than the
   * names.
   */
  lemma RegistersNumbered(u: map<string, int>, f: set<string>, base: string,
                          name: string, u': map<string, int>, f': set<string>)
    requires Numbered(u, f) && Registers(u, f, base, name, u', f')
    ensures Numbered(u', f')
    ensures name == base || exists c :: 1 <= c <= |f| + 2 && name == SuffixedName(base, c)
  {
    var count := if base in u then u[base] else 0;
    if base in f {
      var c :| && count < c && name == SuffixedName(base, c) && name !in f
               && (forall n :: count < n < c ==> SuffixedName(base, n) in f)
               && u' == u[base := c];
      NumberedTaken(u, f, base, c);
      NumberedBound(base, c, f);
      assert Numbered(u', f') by {
        forall n | 1 < n <= c
          ensures SuffixedName(base, n) in f'
        {
        }
      }
    }
  }

  /** Below the first free count, every suffixed name from 2 on is taken. */
  lemma NumberedTaken(u: map<string, int>, f: set<string>, base: string, c: int)
    requires Numbered(u, f)
    requires (if base in u then u[base] else 0) < c
    requires forall n :: (if base in u then u[base] else 0) < n < c ==> SuffixedName(base, n) in f
    ensures forall n :: 1 < n < c ==> SuffixedName(base, n) in f
  {
    forall n | 1 < n < c
      ensures SuffixedName(base, n) in f
    {
      if base in u && n <= u[base] {
        assert SuffixedName(base, n) in f;
      }
    }
  }

  /** A count whose smaller suffixed names from 2 on are all taken is at most two more than the names taken. */
  lemma NumberedBound(base: string, c: int, f: set<string>)
    requires forall n :: 1 < n < c ==> SuffixedName(base, n) in f
    ensures c <= |f| + 2
  {
    if c >= 2 {
      forall x | x in Candidates(base, 1, c - 1)
        ensures x in f
      {
        CandidatesMembers(base, 1, c - 1, x);
      }
      CandidatesSize(base, 1, c - 1);
      SubsetSize(Candidates(base, 1, c - 1), f);
    }
  }

  lemma {:induction false} SubsetSize<T>(a: set<T>, b: set<T>)
    requires a <= b
    ensures |a| <= |b|
    decreases |a|
  {
    if a != {} {
      var x :| x in a;
      SubsetSize(a - {x}, b - {x});
    }
  }

  lemma RegistersBase(u: map<string, int>, f: set<string>, base: string)
    requires base !in f
    ensures var count := if base in u then u[base] else 0;
      Registers(u, f, base, base, u[base := if count > 1 then count else 1], f + {base})
  {
  }

  lemma RegistersSuffixed(u: map<string, int>, f: set<string>, base: string, c: int)
    requires base in f
    requires (if base in u then u[base] else 0) < c
    requires SuffixedName(base, c) !in f
    requires forall n :: (if base in u then u[base] else 0) < n <= c - 1 ==> SuffixedName(base, n) in f
    ensures Registers(u, f, base, SuffixedName(base, c), u[base := c], f + {SuffixedName(base, c)})
  {
  }

  /** The suffixed names for the counts above `lo` up to `n`. */
  ghost function Candidates(base: string, lo: int, n: int): set<string>
    decreases n - lo
  {
    if n <= lo then {} else Candidates(base, lo, n - 1) + {SuffixedName(base, n)}
  }

  /** Each candidate set holds exactly the suffixed names for its counts. */
  lemma {:induction false} CandidatesMembers(base: string, lo: int, n: int, x: string)
    ensures x in Candidates(base, lo, n) <==> exists m :: lo < m <= n && x == SuffixedName(base, m)
    decreases n - lo
  {
    if n > lo {
      CandidatesMembers(base, lo, n - 1, x);
      if x == SuffixedName(base, n) {
        assert lo < n <= n;
      }
      if m :| lo < m <= n && x == SuffixedName(base, m) {
        if m < n {
          assert lo < m <= n - 1;
        }
      }
    }
  }

  /** The candidate for the next count is not among those before it. */
  lemma CandidateIsNew(base: string, lo: int, n: int)
    requires lo < n
    ensures SuffixedName(base, n) !in Candidates(base, lo, n - 1)
  {
    CandidatesMembers(base, lo, n - 1, SuffixedName(base, n));
    if m :| lo < m <= n - 1 && SuffixedName(base, n) == SuffixedName(base, m) {
      SuffixedNameInjective(base, m, n);
    }
  }

  /** When all candidates up to `n` are taken, so is the suffixed name of every count up to `n`. */
  lemma CandidatesTaken(base: string, lo: int, n: int, final: set<string>)
    requires Candidates(base, lo, n) <= final
    ensures forall m :: lo < m <= n ==> SuffixedName(base, m) in final
  {
    forall m | lo < m <= n
      ensures SuffixedName(base, m) in final
    {
      CandidatesMembers(base, lo, n, SuffixedName(base, m));
    }
  }

  /** The candidates for the counts above `lo` up to `n` are `n - lo` distinct names. */
  lemma {:induction false} CandidatesSize(base: string, lo: int, n: int)
    requires lo <= n
    ensures |Candidates(base, lo, n)| == n - lo
    decreases n - lo
  {
    if n > lo {
      CandidatesSize(base, lo, n - 1);
      CandidateIsNew(base, lo, n);
    }
  }

  /** Seeing one more name of `final` leaves fewer unseen. */
  lemma FewerUnseen(final: set<string>, seen: set<string>, x: string)
    requires x in final && x !in seen
    ensures |final - (seen + {x})| < |final - seen|
  {
    assert final - seen == (final - (seen + {x})) + {x};
  }

  // ---------------------------------------------------------------------------
  // The registry as a function of its state
  // ---------------------------------------------------------------------------

  /** The first count above `count` whose suffixed name is free, when those from `lo` up to `count` are taken. */
  function FirstFree(base: string, lo: int, count: int, final: set<string>): (c: int)
    requires lo <= count && Candidates(base, lo, count) <= final
    ensures count < c && SuffixedName(base, c) !in final
    ensures forall n :: count < n < c ==> SuffixedName(base, n) in final
    decreases |final - Candidates(base, lo, count)|
  {
    var candidate := SuffixedName(base, count + 1);
    if candidate !in final then count + 1
    else
      CandidateIsNew(base, lo, count + 1);
      FewerUnseen(final, Candidates(base, lo, count), candidate);
      FirstFree(base, lo, count + 1, final)
  }

  /**
   * What one registration gives: the name and the new counters and set of
   * names given out.
   */
  function Register(u: map<string, int>, f: set<string>, base: string): (res: (string, map<string, int>, set<string>))
    ensures Registers(u, f, base, res.0, res.1, res.2)
  {
    var count := if base in u then u[base] else 0;
    if base !in f then
      RegistersBase(u, f, base);
      (base, u[base := if count > 1 then count else 1], f + {base})
    else
      var c := FirstFree(base, count, count, f);
      RegistersSuffixed(u, f, base, c);
      (SuffixedName(base, c), u[base := c], f + {SuffixedName(base, c)})
  }
}
