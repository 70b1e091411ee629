/** The few Python string operations the crew relies on: `str.strip()` (to
    decide whether a file read produced anything), `str.replace` of one
    character by another, and `str.title()` restricted to ASCII letters. */
module Text {

  /** Python's `str.isspace()`: the characters of the Unicode classes that
      Python counts as whitespace. */
  predicate IsSpace(c: char)
  {
    c == ' ' || ('\t' <= c <= '\r') || ('\U{1c}' <= c <= '\U{1f}') ||
    c == '\U{85}' || c == '\U{a0}' || c == '\U{1680}' ||
    ('\U{2000}' <= c <= '\U{200a}') || c == '\U{2028}' || c == '\U{2029}' ||
    c == '\U{202f}' || c == '\U{205f}' || c == '\U{3000}'
  }

  /** A string made of whitespace only (the empty string included). */
  predicate IsBlank(s: string)
  {
    forall i | 0 <= i < |s| :: IsSpace(s[i])
  }

  /** `s.lstrip()`: drops the leading whitespace. */
  function StripLeading(s: string): (r: string)
  {
    if s == [] || !IsSpace(s[0]) then s else StripLeading(s[1..])
  }

  /** `s.rstrip()`: drops the trailing whitespace. */
  function StripTrailing(s: string): (r: string)
  {
    if s == [] || !IsSpace(s[|s| - 1]) then s else StripTrailing(s[..|s| - 1])
  }

  /** `lstrip()` removes exactly the leading whitespace: what is left is a
      suffix of s that does not start with whitespace. */
  lemma {:induction false} StripLeadingShape(s: string)
    ensures var r := StripLeading(s);
      && |r| <= |s| && r == s[|s| - |r|..]
      && (r == [] || !IsSpace(r[0]))
      && forall i | 0 <= i < |s| - |r| :: IsSpace(s[i])
    decreases |s|
  {
    if s != [] && IsSpace(s[0]) {
      StripLeadingShape(s[1..]);
    }
  }

  /** `rstrip()` removes exactly the trailing whitespace: what is left is a
      prefix of s that does not end with whitespace. */
  lemma {:induction false} StripTrailingShape(s: string)
    ensures var r := StripTrailing(s);
      && |r| <= |s| && r == s[..|r|]
      && (r == [] || !IsSpace(r[|r| - 1]))
      && forall i | |r| <= i < |s| :: IsSpace(s[i])
    decreases |s|
  {
    if s != [] && IsSpace(s[|s| - 1]) {
      StripTrailingShape(s[..|s| - 1]);
    }
  }

  /** `s.strip()`. */
  function Strip(s: string): string
  {
    StripTrailing(StripLeading(s))
  }

  /** What `display_markdown_file` tests: `s.strip()` is empty exactly when
      `s` is blank. */
  lemma StripEmptyIffBlank(s: string)
    ensures Strip(s) == [] <==> IsBlank(s)
  {
    var l := StripLeading(s);
    StripLeadingShape(s);
    StripTrailingShape(l);
    if Strip(s) == [] {
      assert l == [];
    } else {
      var k := |s| - |l|;
      assert !IsSpace(s[k]);
    }
  }

  /** `s.replace(from, to)` for one-character strings `from` and `to`. */
  function ReplaceChar(s: string, from: char, to: char): (r: string)
    ensures |r| == |s|
    ensures forall i | 0 <= i < |s| :: r[i] == (if s[i] == from then to else s[i])
  {
    if s == [] then []
    else [if s[0] == from then to else s[0]] + ReplaceChar(s[1..], from, to)
  }

  predicate IsUpper(c: char) { 'A' <= c <= 'Z' }

  predicate IsLower(c: char) { 'a' <= c <= 'z' }

  /** A character that has a case (ASCII letters only). */
  predicate IsCased(c: char) { IsUpper(c) || IsLower(c) }

  /** `c.upper()` for ASCII: a lower-case letter becomes the upper-case letter
      32 code points below it; every other character is kept. */
  function ToUpper(c: char): (r: char)
    ensures IsCased(r) == IsCased(c)
    ensures IsCased(c) ==> IsUpper(r)
    ensures IsLower(c) ==> r as int == c as int - 32
    ensures !IsLower(c) ==> r == c
  {
    if IsLower(c) then (c as int - 32) as char else c
  }

  /** `c.lower()` for ASCII: an upper-case letter becomes the lower-case letter
      32 code points above it; every other character is kept. */
  function ToLower(c: char): (r: char)
    ensures IsCased(r) == IsCased(c)
    ensures IsCased(c) ==> IsLower(r)
    ensures IsUpper(c) ==> r as int == c as int + 32
    ensures !IsUpper(c) ==> r == c
  {
    if IsUpper(c) then (c as int + 32) as char else c
  }

  /** Upper-casing a lower-case letter and lowering it again gives it back,
      and the other way round. */
  lemma CaseRoundTrip(c: char)
    ensures IsLower(c) ==> ToLower(ToUpper(c)) == c
    ensures IsUpper(c) ==> ToUpper(ToLower(c)) == c
  {
  }

  /** The loop of CPython's `str.title()`: a cased character following a
      cased character is lowered, any other one is upper-cased. */
  function TitleFrom(s: string, previousIsCased: bool): string
  {
    if s == [] then []
    else
      var c := if previousIsCased then ToLower(s[0]) else ToUpper(s[0]);
      [c] + TitleFrom(s[1..], IsCased(c))
  }

  /** `s.title()`. */
  function Title(s: string): string
  {
    TitleFrom(s, false)
  }

  lemma {:induction false} TitleFromAt(s: string, previousIsCased: bool, i: int)
    requires 0 <= i < |s|
    ensures |TitleFrom(s, previousIsCased)| == |s|
    ensures TitleFrom(s, previousIsCased)[i] ==
      if (if i == 0 then previousIsCased else IsCased(s[i - 1])) then ToLower(s[i]) else ToUpper(s[i])
    decreases i
  {
    var c := if previousIsCased then ToLower(s[0]) else ToUpper(s[0]);
    if i == 0 {
      TitleFromLength(s[1..], IsCased(c));
    } else {
      TitleFromAt(s[1..], IsCased(c), i - 1);
      if i - 1 == 0 {
        assert s[1..][0] == s[1];
      } else {
        assert s[1..][i - 2] == s[i - 1];
      }
    }
  }

  lemma {:induction false} TitleFromLength(s: string, previousIsCased: bool)
    ensures |TitleFrom(s, previousIsCased)| == |s|
  {
    if s != [] {
      var c := if previousIsCased then ToLower(s[0]) else ToUpper(s[0]);
      TitleFromLength(s[1..], IsCased(c));
    }
  }

  /** `s.title()` character by character: a letter at the start of a word (the
      string's start, or after a non-letter) is upper-cased, every other letter
      is lowered, and everything else is kept. */
  lemma TitleAt(s: string, i: int)
    requires 0 <= i < |s|
    ensures |Title(s)| == |s|
    ensures Title(s)[i] == if i == 0 || !IsCased(s[i - 1]) then ToUpper(s[i]) else ToLower(s[i])
  {
    TitleFromAt(s, false, i);
  }

  /** Title-casing twice changes nothing more. */
  lemma TitleIdempotent(s: string)
    ensures Title(Title(s)) == Title(s)
  {
    var t := Title(s);
    TitleFromLength(s, false);
    TitleFromLength(t, false);
    forall i | 0 <= i < |s| ensures Title(t)[i] == t[i] {
      TitleAt(s, i);
      TitleAt(t, i);
      if i > 0 {
        TitleAt(s, i - 1);
      }
    }
  }

  /** Title-casing a concatenation: the second part goes on from the last
      character of the first. */
  lemma {:induction false} TitleFromAppend(a: string, b: string, previousIsCased: bool)
    ensures TitleFrom(a + b, previousIsCased)
         == TitleFrom(a, previousIsCased) + TitleFrom(b, if a == [] then previousIsCased else IsCased(a[|a| - 1]))
    decreases |a|
  {
    if a != [] {
      var c := if previousIsCased then ToLower(a[0]) else ToUpper(a[0]);
      assert (a + b)[1..] == a[1..] + b;
      TitleFromAppend(a[1..], b, IsCased(c));
    } else {
      assert a + b == b;
    }
  }

  /** Inside a word, lower-case letters stay as they are. */
  lemma {:induction false} TitleFromLowerWord(w: string)
    requires forall i | 0 <= i < |w| :: IsLower(w[i])
    ensures TitleFrom(w, true) == w
    decreases |w|
  {
    if w != [] {
      TitleFromLowerWord(w[1..]);
    }
  }

  /** A non-empty word of lower-case letters. */
  predicate IsLowerWord(w: string)
  {
    w != [] && forall i | 0 <= i < |w| :: IsLower(w[i])
  }

  /** A word with its first letter upper-cased. */
  function Capitalized(w: string): (r: string)
    requires w != []
    ensures |r| == |w| && r[0] == ToUpper(w[0]) && r[1..] == w[1..]
  {
    [ToUpper(w[0])] + w[1..]
  }

  /** A lower-case word on its own is capitalised by `title()`. */
  lemma TitleOfLowerWord(w: string)
    requires IsLowerWord(w)
    ensures Title(w) == Capitalized(w)
  {
    TitleFromLowerWord(w[1..]);
  }

  /** A space ends the word before it: what follows is title-cased afresh. */
  lemma TitleAfterSpace(s: string, previousIsCased: bool)
    ensures TitleFrom(" " + s, previousIsCased) == " " + Title(s)
  {
    assert (" " + s)[1..] == s;
  }

  /** Two lower-case words separated by a space are each capitalised. */
  lemma TitleOfTwoWords(first: string, second: string)
    requires IsLowerWord(first) && IsLowerWord(second)
    ensures Title(first + " " + second) == Capitalized(first) + " " + Capitalized(second)
  {
    assert first + " " + second == first + (" " + second);
    TitleFromAppend(first, " " + second, false);
    TitleAfterSpace(second, true);
    TitleOfLowerWord(first);
    TitleOfLowerWord(second);
  }
}
