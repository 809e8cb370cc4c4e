/** A small optional-value type, used for lookups that may find nothing. */
module Wrappers {
  datatype Option<+T> = None | Some(value: T)
}

/**
 * Character classes and the few Python `str` operations the server relies on:
 * `strip()`, `splitlines()`, `split(sep)`, `sep.join(...)` and `in`.
 * Strings are sequences of characters, as in Python 3.
 */
module Text {

  /** `str.isspace()`; this is also what `\s` matches in a `str` pattern of `re`. */
  predicate IsSpace(c: char) {
    c == ' ' || '\t' <= c <= '\r' || '\U{1C}' <= c <= '\U{1F}' || c == '\U{85}' || c == '\U{A0}'
    || c == '\U{1680}' || '\U{2000}' <= c <= '\U{200A}' || c == '\U{2028}' || c == '\U{2029}'
    || c == '\U{202F}' || c == '\U{205F}' || c == '\U{3000}'
  }

  /** `\w`, restricted to ASCII letters, ASCII digits and the underscore. */
  predicate IsWordChar(c: char) {
    'a' <= c <= 'z' || 'A' <= c <= 'Z' || '0' <= c <= '9' || c == '_'
  }

  /** `\d`, restricted to ASCII digits. */
  predicate IsDigit(c: char) {
    '0' <= c <= '9'
  }

  /** The line boundaries at which `str.splitlines()` cuts. */
  predicate IsLineBreak(c: char) {
    c == '\n' || c == '\r' || c == '\U{0B}' || c == '\U{0C}' || '\U{1C}' <= c <= '\U{1E}'
    || c == '\U{85}' || c == '\U{2028}' || c == '\U{2029}'
  }

  predicate IsLineChar(c: char) {
    !IsLineBreak(c)
  }

  /** Every character of `s` is in class `p`. */
  predicate All(s: string, p: char -> bool) {
    forall i :: 0 <= i < |s| ==> p(s[i])
  }

  /** `s` is non-empty and its first character is in class `p`. */
  predicate StartsWith(s: string, p: char -> bool) {
    s != [] && p(s[0])
  }

  /** Length of the longest prefix of `s` made of characters in class `p`. */
  function Span(s: string, p: char -> bool): (n: nat)
    ensures n <= |s|
    ensures forall k :: 0 <= k < n ==> p(s[k])
    ensures n < |s| ==> !p(s[n])
  {
    if s != [] && p(s[0]) then 1 + Span(s[1..], p) else 0
  }

  /** Any run of class-`p` characters that ends at a character outside `p` is the span. */
  lemma SpanAt(s: string, p: char -> bool, j: nat)
    requires j <= |s|
    requires forall k :: 0 <= k < j ==> p(s[k])
    requires j < |s| ==> !p(s[j])
    ensures Span(s, p) == j
  {
  }

  /** The span cuts `s` into a class-`p` run and a remainder that does not start in `p`. */
  lemma SpanParts(s: string, p: char -> bool)
    ensures var n := Span(s, p);
      s == s[..n] + s[n..] && All(s[..n], p) && !StartsWith(s[n..], p)
  {
    var n := Span(s, p);
    assert n < |s| ==> s[n..][0] == s[n];
  }

  /** A class-`p` run followed by text that does not start in `p` is cut where they meet. */
  lemma SpanOfConcat(x: string, y: string, p: char -> bool)
    requires All(x, p) && !StartsWith(y, p)
    ensures Span(x + y, p) == |x|
    ensures (x + y)[..|x|] == x && (x + y)[|x|..] == y
  {
    assert |y| > 0 ==> (x + y)[|x|] == y[0];
    SpanAt(x + y, p, |x|);
  }

  /** Length of the longest suffix of `s` made of characters in class `p`. */
  function SpanEnd(s: string, p: char -> bool): (n: nat)
    ensures n <= |s|
    ensures forall k :: |s| - n <= k < |s| ==> p(s[k])
    ensures n < |s| ==> !p(s[|s| - n - 1])
  {
    if s != [] && p(s[|s| - 1]) then 1 + SpanEnd(s[..|s| - 1], p) else 0
  }

  /** Any run of class-`p` characters at the end of `s` that follows a character outside `p` is the end span. */
  lemma SpanEndAt(s: string, p: char -> bool, j: nat)
    requires j <= |s|
    requires forall k :: |s| - j <= k < |s| ==> p(s[k])
    requires j < |s| ==> !p(s[|s| - j - 1])
    ensures SpanEnd(s, p) == j
  {
  }

  /** `str.strip()` with no argument: drop leading and trailing whitespace. */
  function Strip(s: string): (r: string)
    ensures r == [] <==> All(s, IsSpace)
    ensures r != [] ==> !IsSpace(r[0]) && !IsSpace(r[|r| - 1])
    ensures exists a :: 0 <= a <= |s| - |r| && r <= s[a..]
                        && All(s[..a], IsSpace) && All(s[a + |r|..], IsSpace)
  {
    var a := Span(s, IsSpace);
    if a == |s| then
      assert All(s[..a], IsSpace) && All(s[a..], IsSpace);
      []
    else
      var b := SpanEnd(s, IsSpace);
      var r := s[a..|s| - b];
      assert r <= s[a..];
      assert All(s[..a], IsSpace) && All(s[a + |r|..], IsSpace);
      r
  }

  /** Stripping only removes characters. */
  lemma StripSubset(s: string)
    ensures forall c :: c in Strip(s) ==> c in s
  {
    var a := Span(s, IsSpace);
    if a < |s| {
      var r := s[a..|s| - SpanEnd(s, IsSpace)];
      assert Strip(s) == r;
      forall c | c in r
        ensures c in s
      {
        var k :| 0 <= k < |r| && r[k] == c;
        assert r[k] == s[a + k];
      }
    }
  }

  /** A string with no surrounding whitespace is left as it is by `strip()`. */
  lemma StripTrimmed(s: string)
    requires s != [] && !IsSpace(s[0]) && !IsSpace(s[|s| - 1])
    ensures Strip(s) == s
  {
    SpanAt(s, IsSpace, 0);
    assert s[0..|s|] == s;
  }

  /** Whitespace around a text that neither starts nor ends with whitespace is what `strip()` removes. */
  lemma StripAround(pre: string, s: string, post: string)
    requires All(pre, IsSpace) && All(post, IsSpace)
    requires s != [] && !IsSpace(s[0]) && !IsSpace(s[|s| - 1])
    ensures Strip(pre + s + post) == s
  {
    var x := pre + s + post;
    assert x == pre + (s + post);
    assert (s + post)[0] == s[0];
    SpanOfConcat(pre, s + post, IsSpace);
    assert x[|x| - |post| - 1] == s[|s| - 1];
    assert forall k :: |x| - |post| <= k < |x| ==> x[k] == post[k - (|pre| + |s|)];
    SpanEndAt(x, IsSpace, |post|);
    assert x[|pre|..|x| - |post|] == s;
  }

  /** `pat in s` for strings: `pat` is a prefix of `s` or of one of its suffixes. */
  predicate Contains(s: string, pat: string)
    decreases |s|
  {
    pat <= s || (s != [] && Contains(s[1..], pat))
  }

  /** `pat in s` holds exactly when `pat` occurs at some position of `s`. */
  lemma {:induction false} ContainsIff(s: string, pat: string)
    ensures Contains(s, pat) <==> exists i :: 0 <= i <= |s| && pat <= s[i..]
    decreases |s|
  {
    assert s[0..] == s;
    if s != [] {
      ContainsIff(s[1..], pat);
      assert forall i :: 1 <= i <= |s| ==> s[i..] == s[1..][i - 1..];
    }
  }

  /** A pattern whose first character never occurs in `s` is not contained in `s`. */
  lemma {:induction false} NotContains(s: string, pat: string)
    requires pat != [] && pat[0] !in s
    ensures !Contains(s, pat)
    decreases |s|
  {
    if s != [] {
      NotContains(s[1..], pat);
    }
  }

  /** Index of the first occurrence of `c` in `s`, or `|s|` when there is none. */
  function IndexOf(s: string, c: char): (i: nat)
    ensures i <= |s|
    ensures forall k :: 0 <= k < i ==> s[k] != c
    ensures i < |s| ==> s[i] == c
  {
    if s == [] || s[0] == c then 0 else 1 + IndexOf(s[1..], c)
  }

  /** Index of the last occurrence of `c` in `s`, or -1 when there is none. */
  function LastIndexOf(s: string, c: char): (i: int)
    ensures -1 <= i < |s|
    ensures 0 <= i ==> s[i] == c
    ensures forall k :: i < k < |s| ==> s[k] != c
  {
    if s == [] then -1
    else if s[|s| - 1] == c then |s| - 1
    else LastIndexOf(s[..|s| - 1], c)
  }

  /** `sep.join(parts)` for a one-character separator. */
  function Join(parts: seq<string>, sep: char): string {
    if |parts| == 0 then ""
    else if |parts| == 1 then parts[0]
    else parts[0] + [sep] + Join(parts[1..], sep)
  }

  /** Joining a piece in front of at least one more puts the separator between them. */
  lemma JoinCons(p: string, rest: seq<string>, sep: char)
    requires rest != []
    ensures Join([p] + rest, sep) == p + [sep] + Join(rest, sep)
  {
    assert ([p] + rest)[1..] == rest;
  }

  /** A join starts with the first character of its first piece. */
  lemma JoinHead(parts: seq<string>, sep: char)
    requires |parts| >= 1 && parts[0] != []
    ensures Join(parts, sep) != [] && Join(parts, sep)[0] == parts[0][0]
  {
  }

  /** A join ends with the last character of its last piece. */
  lemma {:induction false} JoinLast(parts: seq<string>, sep: char)
    requires |parts| >= 1 && parts[|parts| - 1] != []
    ensures var j, p := Join(parts, sep), parts[|parts| - 1]; j != [] && j[|j| - 1] == p[|p| - 1]
  {
    if |parts| > 1 {
      JoinLast(parts[1..], sep);
    }
  }

  /** Whitespace around a join whose first piece does not start and last piece does not end with whitespace is what `strip()` removes. */
  lemma StripAroundJoin(pre: string, parts: seq<string>, sep: char, post: string)
    requires All(pre, IsSpace) && All(post, IsSpace)
    requires |parts| >= 1 && parts[0] != [] && parts[|parts| - 1] != []
    requires !IsSpace(parts[0][0]) && !IsSpace(parts[|parts| - 1][|parts[|parts| - 1]| - 1])
    ensures Strip(pre + Join(parts, sep) + post) == Join(parts, sep)
  {
    JoinHead(parts, sep);
    JoinLast(parts, sep);
    StripAround(pre, Join(parts, sep), post);
  }

  /**
   * `s.split(sep)`: the pieces between separators, always at least one
   * (`"".split("\n") == [""]`); joining them back gives `s`.
   */
  function Split(s: string, sep: char): (parts: seq<string>)
    ensures |parts| >= 1
    ensures forall k :: 0 <= k < |parts| ==> sep !in parts[k]
    ensures Join(parts, sep) == s
    decreases |s|
  {
    var i := IndexOf(s, sep);
    if i == |s| then
      assert s[..i] == s;
      [s]
    else
      var rest := Split(s[i + 1..], sep);
      assert s == s[..i] + [sep] + s[i + 1..];
      [s[..i]] + rest
  }

  /** Splitting a join of separator-free pieces gives the pieces back. */
  lemma {:induction false} SplitJoin(parts: seq<string>, sep: char)
    requires |parts| >= 1
    requires forall k :: 0 <= k < |parts| ==> sep !in parts[k]
    ensures Split(Join(parts, sep), sep) == parts
  {
    var p := parts[0];
    if |parts| == 1 {
      assert IndexOf(p, sep) == |p|;
    } else {
      var tail := Join(parts[1..], sep);
      var s := p + [sep] + tail;
      assert s[..|p|] == p;
      assert forall k :: 0 <= k < |p| ==> s[k] == p[k] && p[k] in p;
      assert s[|p|] == sep;
      assert IndexOf(s, sep) == |p|;
      assert s[|p| + 1..] == tail;
      SplitJoin(parts[1..], sep);
    }
  }

  /** `s.split(sep)` has one piece more than `s` has separators. */
  lemma {:induction false} SplitCount(s: string, sep: char)
    ensures |Split(s, sep)| == multiset(s)[sep] + 1
    decreases |s|
  {
    var i := IndexOf(s, sep);
    if i == |s| {
      assert s[..i] == s;
    } else {
      assert s == s[..i] + [sep] + s[i + 1..];
      assert multiset(s) == multiset(s[..i]) + multiset{sep} + multiset(s[i + 1..]);
      SplitCount(s[i + 1..], sep);
    }
  }

  /**
   * `s.splitlines()`: cuts at every line boundary (a `\r\n` pair counts as
   * one), keeps no boundary characters, and yields no final empty line.
   */
  function SplitLines(s: string): (lines: seq<string>)
    ensures forall k :: 0 <= k < |lines| ==> All(lines[k], IsLineChar)
    decreases |s|
  {
    if s == [] then []
    else
      var i := Span(s, IsLineChar);
      if i == |s| then
        assert s[..i] == s;
        [s]
      else
        var next := if s[i] == '\r' && i + 1 < |s| && s[i + 1] == '\n' then i + 2 else i + 1;
        [s[..i]] + SplitLines(s[next..])
  }

  /** A non-empty string without line boundaries is one line. */
  lemma SplitLinesOne(s: string)
    requires s != [] && All(s, IsLineChar)
    ensures SplitLines(s) == [s]
  {
    assert s[..|s|] == s;
    SpanAt(s, IsLineChar, |s|);
  }

  /** A line ended by `\n` is the first piece of `splitlines()`. */
  lemma SplitLinesCons(line: string, rest: string)
    requires All(line, IsLineChar)
    ensures SplitLines(line + "\n" + rest) == [line] + SplitLines(rest)
  {
    var s := line + "\n" + rest;
    assert s[..|line|] == line;
    SpanAt(s, IsLineChar, |line|);
    assert s[|line| + 1..] == rest;
  }

  /**
   * On text whose only line boundary is `\n`, `splitlines()` of the text with
   * a final newline is `split('\n')` of the text: the lines are exactly the
   * pieces between the newlines.
   */
  lemma {:induction false} SplitLinesSplit(s: string)
    requires forall k :: 0 <= k < |s| ==> s[k] == '\n' || IsLineChar(s[k])
    ensures SplitLines(s + "\n") == Split(s, '\n')
    decreases |s|
  {
    var i := IndexOf(s, '\n');
    var a := s[..i];
    assert All(a, IsLineChar);
    if i == |s| {
      assert a == s;
      assert s + "\n" == a + "\n" + "";
      SplitLinesCons(a, "");
    } else {
      var b := s[i + 1..];
      assert s + "\n" == a + "\n" + (b + "\n");
      SplitLinesCons(a, b + "\n");
      SplitLinesSplit(b);
    }
  }
}
