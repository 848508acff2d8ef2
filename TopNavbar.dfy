/** The page title shown in the top bar, derived from the current path. */
module TopNavbar {
  import opened JsValues

  /** `s.indexOf(c)` for a character that occurs: the first position holding it. */
  function FirstIndex(s: string, c: char): (i: int)
    requires c in s
    ensures 0 <= i < |s| && s[i] == c
    ensures forall j :: 0 <= j < i ==> s[j] != c
  {
    if s[0] == c then 0
    else
      assert c in s[1..];
      1 + FirstIndex(s[1..], c)
  }

  /** `s.replace(from, to)` with a one-character string pattern: only the first occurrence is replaced. */
  function ReplaceFirst(s: string, from: char, to: string): (r: string)
    ensures from !in s ==> r == s
    ensures from in s ==> |r| == |s| - 1 + |to|
  {
    if from !in s then s
    else
      var i := FirstIndex(s, from);
      s[..i] + to + s[i + 1..]
  }

  /** The characters `\w` matches: ASCII letters, digits and `_`. */
  predicate IsWordChar(c: char) {
    'a' <= c <= 'z' || 'A' <= c <= 'Z' || '0' <= c <= '9' || c == '_'
  }

  /** A `\b\w` match starts at `i`: a word character with no word character before it. */
  predicate StartsWord(s: string, i: int)
    requires 0 <= i < |s|
  {
    IsWordChar(s[i]) && (i == 0 || !IsWordChar(s[i - 1]))
  }

  /** `s.replace(/\b\w/g, c => c.toUpperCase())` */
  function CapitalizeWords(s: string): (r: string)
    ensures |r| == |s|
    ensures forall i :: 0 <= i < |s| ==> r[i] == if StartsWord(s, i) then UpperChar(s[i]) else s[i]
  {
    if s == [] then []
    else
      var init := s[..|s| - 1];
      var n := |s| - 1;
      assert forall i :: 0 <= i < n ==> StartsWord(init, i) == StartsWord(s, i);
      CapitalizeWords(init) + [if StartsWord(s, n) then UpperChar(s[n]) else s[n]]
  }

  /** Capitalising keeps word characters word characters, so applying it twice changes nothing. */
  lemma CapitalizeWordsIdempotent(s: string)
    ensures CapitalizeWords(CapitalizeWords(s)) == CapitalizeWords(s)
  {
    var r := CapitalizeWords(s);
    assert forall i :: 0 <= i < |s| ==> (IsWordChar(r[i]) <==> IsWordChar(s[i]));
    assert forall i :: 0 <= i < |s| ==> (StartsWord(r, i) <==> StartsWord(s, i));
    assert forall i :: 0 <= i < |s| ==> UpperChar(UpperChar(s[i])) == UpperChar(s[i]);
  }

  /** `formatTitle(path)` */
  function FormatTitle(path: string): string {
    if path == "/" then "Dashboard"
    else CapitalizeWords(ReplaceFirst(ReplaceFirst(path, '/', ""), '-', " "))
  }

  /** Besides removing the first `/`, the title changes no length: it is one character shorter
      than a path containing `/`, as long as a path without one. */
  lemma FormatTitleLength(path: string)
    requires path != "/"
    ensures '/' in path ==> |FormatTitle(path)| == |path| - 1
    ensures '/' !in path ==> |FormatTitle(path)| == |path|
  {
  }

  /** Only the first occurrence is replaced: everything before it and every character after it,
      later occurrences included, is kept in order (this is why only the first `/` is removed and
      only the first `-` becomes a space). */
  lemma OnlyFirstReplaced(s: string, c: char, to: string)
    requires c in s
    ensures var i := FirstIndex(s, c); var r := ReplaceFirst(s, c, to);
      r[..i] == s[..i] && r[i..i + |to|] == to && forall j :: i < j < |s| ==> r[j - 1 + |to|] == s[j]
  {
    var i := FirstIndex(s, c);
    var a, b := s[..i], s[i + 1..];
    var r := a + to + b;
    assert ReplaceFirst(s, c, to) == r;
    assert r[..i] == a;
    assert r[i..i + |to|] == to;
    forall j | i < j < |s|
      ensures r[j - 1 + |to|] == s[j]
    {
      assert r[j - 1 + |to|] == b[j - i - 1];
    }
  }

  /** The root is the dashboard; `/wp` is titled "Wp" and `/sp` "Sp". */
  lemma SiteTitles()
    ensures FormatTitle("/") == "Dashboard"
    ensures FormatTitle("/wp") == "Wp"
    ensures FormatTitle("/sp") == "Sp"
  {
    assert ReplaceFirst("/wp", '/', "") == "wp";
    assert ReplaceFirst("wp", '-', " ") == "wp";
    assert StartsWord("wp", 0) && !StartsWord("wp", 1);
    assert ReplaceFirst("/sp", '/', "") == "sp";
    assert ReplaceFirst("sp", '-', " ") == "sp";
    assert StartsWord("sp", 0) && !StartsWord("sp", 1);
  }
}
