/**
 * XML character data as the workbook writer emits it: the escape table of
 * Go's `xml.EscapeText` (quote, apostrophe, ampersand, angle brackets, tab,
 * line feed and carriage return become character references, and characters
 * XML 1.0 does not allow become U+FFFD), and a reader for that table so that
 * escaped text can be read back.
 */
module XmlText {
  import opened Text

  /** The replacement character written for characters XML cannot carry. */
  const Replacement: char := 0xFFFD as char

  /** The `Char` production of XML 1.0 (section 2.2). */
  predicate IsXmlChar(c: char) {
    var n := c as int;
    n == 0x09 || n == 0x0A || n == 0x0D || (0x20 <= n <= 0xD7FF) || (0xE000 <= n <= 0xFFFD) || (0x10000 <= n <= 0x10FFFF)
  }

  /** What one character becomes in escaped text. */
  function EscapeChar(c: char): (e: string)
    ensures e != []
    ensures '<' !in e && '>' !in e && '"' !in e && '\n' !in e && '\r' !in e && '\t' !in e
  {
    if c == '"' then "&#34;"
    else if c == '\'' then "&#39;"
    else if c == '&' then "&amp;"
    else if c == '<' then "&lt;"
    else if c == '>' then "&gt;"
    else if c == '\t' then "&#x9;"
    else if c == '\n' then "&#xA;"
    else if c == '\r' then "&#xD;"
    else if !IsXmlChar(c) then [Replacement]
    else [c]
  }

  /** The characters that pass through unescaped. */
  predicate IsPlain(c: char) {
    IsXmlChar(c) && c != '"' && c != '\'' && c != '&' && c != '<' && c != '>' && c != '\t' && c != '\n' && c != '\r'
  }

  /** `xml.EscapeText` over a string of characters. */
  function Escape(s: string): (e: string)
    ensures '<' !in e && '>' !in e && '"' !in e && '\n' !in e && '\r' !in e && '\t' !in e
  {
    if s == [] then [] else EscapeChar(s[0]) + Escape(s[1..])
  }

  /** What the text denotes once read: characters XML cannot carry read as U+FFFD. */
  function Sanitize(s: string): (r: string)
    ensures |r| == |s|
  {
    if s == [] then [] else [if IsXmlChar(s[0]) then s[0] else Replacement] + Sanitize(s[1..])
  }

  /** Text made of XML characters reads as itself. */
  lemma {:induction false} SanitizeXmlText(s: string)
    requires forall k :: 0 <= k < |s| ==> IsXmlChar(s[k])
    ensures Sanitize(s) == s
  {
    if s != [] {
      SanitizeXmlText(s[1..]);
    }
  }

  /**
   * Reads escaped text back: each character reference of the table (and the
   * decimal `&#10;` for a line feed) stands for its character, anything else
   * for itself.
   */
  function Unescape(e: string): string
    decreases |e|
  {
    if e == [] then []
    else if e[0] != '&' then [e[0]] + Unescape(e[1..])
    else if HasPrefix(e, "&#34;") then ['"'] + Unescape(e[5..])
    else if HasPrefix(e, "&#39;") then ['\''] + Unescape(e[5..])
    else if HasPrefix(e, "&#10;") then ['\n'] + Unescape(e[5..])
    else if HasPrefix(e, "&amp;") then ['&'] + Unescape(e[5..])
    else if HasPrefix(e, "&lt;") then ['<'] + Unescape(e[4..])
    else if HasPrefix(e, "&gt;") then ['>'] + Unescape(e[4..])
    else if HasPrefix(e, "&#x9;") then ['\t'] + Unescape(e[5..])
    else if HasPrefix(e, "&#xA;") then ['\n'] + Unescape(e[5..])
    else if HasPrefix(e, "&#xD;") then ['\r'] + Unescape(e[5..])
    else [e[0]] + Unescape(e[1..])
  }

  lemma UnescapePlain(c: char, rest: string)
    requires c != '&'
    ensures Unescape([c] + rest) == [c] + Unescape(rest)
  {
    assert ([c] + rest)[1..] == rest;
  }

  lemma UnescapeQuotes(rest: string)
    ensures Unescape("&#34;" + rest) == "\"" + Unescape(rest)
    ensures Unescape("&#39;" + rest) == "'" + Unescape(rest)
  {
    assert ("&#34;" + rest)[..5] == "&#34;" && ("&#34;" + rest)[5..] == rest;
    assert ("&#39;" + rest)[..5] == "&#39;" && ("&#39;" + rest)[5..] == rest;
    assert ("&#39;" + rest)[3] != "&#34;"[3];
  }

  lemma UnescapeAmp(rest: string)
    ensures Unescape("&amp;" + rest) == "&" + Unescape(rest)
  {
    assert ("&amp;" + rest)[..5] == "&amp;" && ("&amp;" + rest)[5..] == rest;
    assert ("&amp;" + rest)[1] != '#';
  }

  lemma UnescapeLt(rest: string)
    ensures Unescape("&lt;" + rest) == "<" + Unescape(rest)
  {
    assert ("&lt;" + rest)[..4] == "&lt;" && ("&lt;" + rest)[4..] == rest;
    assert ("&lt;" + rest)[1] != '#' && ("&lt;" + rest)[1] != 'a';
  }

  lemma UnescapeGt(rest: string)
    ensures Unescape("&gt;" + rest) == ">" + Unescape(rest)
  {
    assert ("&gt;" + rest)[..4] == "&gt;" && ("&gt;" + rest)[4..] == rest;
    assert ("&gt;" + rest)[1] != '#' && ("&gt;" + rest)[1] != 'a' && ("&gt;" + rest)[1] != 'l';
  }

  lemma UnescapeTab(rest: string)
    ensures Unescape("&#x9;" + rest) == "\t" + Unescape(rest)
  {
    assert ("&#x9;" + rest)[..5] == "&#x9;" && ("&#x9;" + rest)[5..] == rest;
    assert ("&#x9;" + rest)[2] == 'x';
  }

  lemma UnescapeLineFeed(rest: string)
    ensures Unescape("&#xA;" + rest) == "\n" + Unescape(rest)
  {
    assert ("&#xA;" + rest)[..5] == "&#xA;" && ("&#xA;" + rest)[5..] == rest;
    assert ("&#xA;" + rest)[2] == 'x' && ("&#xA;" + rest)[3] == 'A';
  }

  lemma UnescapeReturn(rest: string)
    ensures Unescape("&#xD;" + rest) == "\r" + Unescape(rest)
  {
    assert ("&#xD;" + rest)[..5] == "&#xD;" && ("&#xD;" + rest)[5..] == rest;
    assert ("&#xD;" + rest)[2] == 'x' && ("&#xD;" + rest)[3] == 'D';
  }

  /** One escaped character reads back as the character (or U+FFFD when XML cannot carry it). */
  lemma UnescapeEscapeChar(c: char, rest: string)
    ensures Unescape(EscapeChar(c) + rest) == [if IsXmlChar(c) then c else Replacement] + Unescape(rest)
  {
    if c == '"' || c == '\'' {
      UnescapeQuotes(rest);
    } else if c == '&' {
      UnescapeAmp(rest);
    } else if c == '<' {
      UnescapeLt(rest);
    } else if c == '>' {
      UnescapeGt(rest);
    } else if c == '\t' {
      UnescapeTab(rest);
    } else if c == '\n' {
      UnescapeLineFeed(rest);
    } else if c == '\r' {
      UnescapeReturn(rest);
    } else {
      UnescapePlain(EscapeChar(c)[0], rest);
    }
  }

  /** Reading escaped text back gives the original text, with characters XML cannot carry as U+FFFD. */
  lemma {:induction false} UnescapeEscape(s: string)
    ensures Unescape(Escape(s)) == Sanitize(s)
  {
    if s != [] {
      UnescapeEscape(s[1..]);
      UnescapeEscapeChar(s[0], Escape(s[1..]));
    }
  }

  /** Text made of XML characters, line feeds included, reads back exactly. */
  lemma EscapeRoundTrip(s: string)
    requires forall k :: 0 <= k < |s| ==> IsXmlChar(s[k])
    ensures Unescape(Escape(s)) == s
  {
    UnescapeEscape(s);
    SanitizeXmlText(s);
  }

  /** `strings.ReplaceAll(s, "\n", "&#10;")`. */
  function ReplaceNewlines(s: string): (r: string)
    ensures '\n' !in r
  {
    if s == [] then []
    else (if s[0] == '\n' then "&#10;" else [s[0]]) + ReplaceNewlines(s[1..])
  }

  /** A string without line feeds is left as it is. */
  lemma {:induction false} ReplaceNewlinesNone(s: string)
    requires '\n' !in s
    ensures ReplaceNewlines(s) == s
  {
    if s != [] {
      ReplaceNewlinesNone(s[1..]);
    }
  }

  /** `escapeCellText`: the escaped text with any line feed left in it written as `&#10;`. */
  function EscapeCellText(value: string): (e: string)
  {
    ReplaceNewlines(Escape(value))
  }

  /**
   * The escaped cell text is exactly the escaped text, since escaping already
   * turns every line feed into `&#xA;`; it holds no `<` and no line feed and
   * reads back as the value.
   */
  lemma CellTextReadsBack(value: string)
    ensures EscapeCellText(value) == Escape(value)
    ensures '<' !in EscapeCellText(value) && '\n' !in EscapeCellText(value)
    ensures Unescape(EscapeCellText(value)) == Sanitize(value)
  {
    ReplaceNewlinesNone(Escape(value));
    UnescapeEscape(value);
  }

  /** `xmlEscapeAttr`: the escaped text, used for attribute values. */
  function EscapeAttr(value: string): (e: string)
  {
    Escape(value)
  }
}
