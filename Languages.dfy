/**
 * The parser inside `list_subtitle_languages`. It reads the tool's subtitle
 * listing line by line and skips everything up to the first line that
 * contains "Available subtitles". It then matches each later non-blank line
 * against `\s*(\w+)\s+(\w+)?\s*(.*)` and keeps "<group 1>: <group 3 stripped>".
 */
module Languages {
  import opened Wrappers
  import opened Text

  const Marker := "Available subtitles"
  const NoneFound := "No subtitles found for this video."
  const ListingTitle := "Available subtitle languages:"

  /**
   * How `re.match(r'\s*(\w+)\s+(\w+)?\s*(.*)', line)` cuts a line:
   * `code` is group 1, `middle` is group 2 (empty when the group is unset),
   * and group 3 is `rest` up to its first newline.
   */
  datatype LineMatch = LineMatch(lead: string, code: string, gap: string, middle: string, pad: string, rest: string)

  /**
   * `m` is the match the regex engine finds in `line`: the parts spell the
   * line, each part lies in the class its sub-pattern accepts, and each
   * greedy part is as long as it can be.
   */
  predicate IsGreedyMatch(line: string, m: LineMatch) {
    && line == m.lead + (m.code + (m.gap + (m.middle + (m.pad + m.rest))))
    && All(m.lead, IsSpace)
    && m.code != [] && All(m.code, IsWordChar)
    && m.gap != [] && All(m.gap, IsSpace)
    && All(m.middle, IsWordChar)
    && All(m.pad, IsSpace)
    && !StartsWith(m.middle + (m.pad + m.rest), IsSpace)
    && !StartsWith(m.pad + m.rest, IsWordChar)
    && !StartsWith(m.rest, IsSpace)
  }

  /**
   * The pattern matches at the start of `line` exactly when the line starts
   * with some whitespace, then one or more word characters, then one
   * whitespace character; the remaining sub-patterns can always match.
   */
  predicate PatternMatches(line: string) {
    exists i, j :: 0 <= i < j < |line| && All(line[..i], IsSpace) && All(line[i..j], IsWordChar) && IsSpace(line[j])
  }

  /** The regex match of one line, found by scanning greedily part by part. */
  function MatchLine(line: string): Option<LineMatch> {
    var a := Span(line, IsSpace);
    var t1 := line[a..];
    var b := Span(t1, IsWordChar);
    var t2 := t1[b..];
    var c := Span(t2, IsSpace);
    if b == 0 || c == 0 then None
    else
      var t3 := t2[c..];
      var d := Span(t3, IsWordChar);
      var t4 := t3[d..];
      var e := Span(t4, IsSpace);
      Some(LineMatch(line[..a], t1[..b], t2[..c], t3[..d], t4[..e], t4[e..]))
  }

  /** What the scanner finds is a greedy match. */
  lemma MatchLineGreedy(line: string)
    requires MatchLine(line).Some?
    ensures IsGreedyMatch(line, MatchLine(line).value)
  {
    var a := Span(line, IsSpace);
    var t1 := line[a..];
    var b := Span(t1, IsWordChar);
    var t2 := t1[b..];
    var c := Span(t2, IsSpace);
    var t3 := t2[c..];
    var d := Span(t3, IsWordChar);
    var t4 := t3[d..];
    SpanParts(line, IsSpace);
    SpanParts(t1, IsWordChar);
    SpanParts(t2, IsSpace);
    SpanParts(t3, IsWordChar);
    SpanParts(t4, IsSpace);
  }

  /** The scanner finds a match exactly when the pattern matches. */
  lemma MatchLineIff(line: string)
    ensures MatchLine(line).Some? <==> PatternMatches(line)
  {
    if MatchLine(line).Some? {
      MatchLineGreedy(line);
      GreedyMatchPattern(line, MatchLine(line).value);
    }
    if PatternMatches(line) {
      var i, j :| 0 <= i < j < |line| && All(line[..i], IsSpace) && All(line[i..j], IsWordChar) && IsSpace(line[j]);
      PatternMatchesAt(line, i, j);
    }
  }

  /** A greedy match is a match of the pattern. */
  lemma GreedyMatchPattern(line: string, m: LineMatch)
    requires IsGreedyMatch(line, m)
    ensures PatternMatches(line)
  {
    var i, j := |m.lead|, |m.lead| + |m.code|;
    assert line[..i] == m.lead;
    assert line[i..j] == m.code;
    assert line[j] == m.gap[0];
  }

  /** Where the pattern matches, the scanner's spans are the witnesses'. */
  lemma PatternMatchesAt(line: string, i: nat, j: nat)
    requires i < j < |line| && All(line[..i], IsSpace) && All(line[i..j], IsWordChar) && IsSpace(line[j])
    ensures MatchLine(line).Some?
  {
    assert forall k :: 0 <= k < i ==> line[k] == line[..i][k];
    assert IsWordChar(line[i]) by { assert line[i..j][0] == line[i]; }
    SpanAt(line, IsSpace, i);
    var t1 := line[i..];
    assert forall k :: 0 <= k < j - i ==> t1[k] == line[i..j][k];
    assert t1[j - i] == line[j];
    SpanAt(t1, IsWordChar, j - i);
    var t2 := t1[j - i..];
    assert t2[0] == line[j];
    assert Span(t2, IsSpace) > 0;
  }

  /** There is only one greedy match: the one the scanner returns. */
  lemma GreedyMatchUnique(line: string, m: LineMatch)
    requires IsGreedyMatch(line, m)
    ensures MatchLine(line) == Some(m)
  {
    var t4 := m.pad + m.rest;
    var t3 := m.middle + t4;
    var t2 := m.gap + t3;
    var t1 := m.code + t2;
    assert t1[0] == m.code[0];
    assert t2[0] == m.gap[0];
    SpanOfConcat(m.lead, t1, IsSpace);
    SpanOfConcat(m.code, t2, IsWordChar);
    SpanOfConcat(m.gap, t3, IsSpace);
    SpanOfConcat(m.middle, t4, IsWordChar);
    SpanOfConcat(m.pad, m.rest, IsSpace);
  }

  /** Group 3: `.` does not match a newline, so the group stops before one. */
  function UpToNewline(s: string): string {
    s[..IndexOf(s, '\n')]
  }

  /** The entry kept for a matched line: `f"{code}: {group3.strip()}"`. */
  function EntryText(m: LineMatch): string {
    m.code + ": " + Strip(UpToNewline(m.rest))
  }

  /**
   * What one line after the marker contributes: nothing for a line holding
   * the marker again, a blank line or a line the pattern does not match,
   * otherwise its entry.
   */
  function LineEntries(line: string): (entries: seq<string>)
    ensures |entries| <= 1
  {
    if Contains(line, Marker) || All(line, IsSpace) then []
    else
      match MatchLine(line)
      case Some(m) => [EntryText(m)]
      case None => []
  }

  /** A line the pattern matches is not blank: it holds a word character. */
  lemma PatternNotBlank(line: string)
    requires PatternMatches(line)
    ensures !All(line, IsSpace)
  {
    var i, j :| 0 <= i < j < |line| && All(line[..i], IsSpace) && All(line[i..j], IsWordChar) && IsSpace(line[j]);
    assert line[i..j][0] == line[i];
  }

  /** A line yields an entry exactly when it has no marker and the pattern matches it; the entry is built from the greedy match. */
  lemma LineEntriesSpec(line: string)
    ensures |LineEntries(line)| == 1 <==> !Contains(line, Marker) && PatternMatches(line)
    ensures forall m :: IsGreedyMatch(line, m) && !Contains(line, Marker) ==> LineEntries(line) == [EntryText(m)]
  {
    MatchLineIff(line);
    if PatternMatches(line) {
      PatternNotBlank(line);
    }
    forall m | IsGreedyMatch(line, m) && !Contains(line, Marker)
      ensures LineEntries(line) == [EntryText(m)]
    {
      LineEntriesOfMatch(line, m);
    }
  }

  lemma LineEntriesOfMatch(line: string, m: LineMatch)
    requires IsGreedyMatch(line, m) && !Contains(line, Marker)
    ensures LineEntries(line) == [EntryText(m)]
  {
    GreedyMatchUnique(line, m);
    GreedyMatchPattern(line, m);
    PatternNotBlank(line);
  }

  /** The entries produced by the lines of the section, in order. */
  function SectionEntries(lines: seq<string>): seq<string> {
    if lines == [] then [] else LineEntries(lines[0]) + SectionEntries(lines[1..])
  }

  /** Index of the first line containing the marker. */
  function FirstMarker(lines: seq<string>): (r: Option<nat>)
    ensures r.Some? ==> r.value < |lines|
  {
    if lines == [] then None
    else if Contains(lines[0], Marker) then Some(0)
    else
      match FirstMarker(lines[1..])
      case None => None
      case Some(k) => Some(k + 1)
  }

  /** The line found holds the marker, and no line before it does. */
  lemma {:induction false} FirstMarkerSpec(lines: seq<string>)
    ensures var r := FirstMarker(lines);
      && (r.Some? ==> Contains(lines[r.value], Marker))
      && forall k :: 0 <= k < |lines| && (r.None? || k < r.value) ==> !Contains(lines[k], Marker)
  {
    if lines != [] && !Contains(lines[0], Marker) {
      FirstMarkerSpec(lines[1..]);
      assert forall k :: 1 <= k < |lines| ==> lines[k] == lines[1..][k - 1];
    }
  }

  /**
   * The entries the parser collects from the listing's lines: none when no
   * line holds the marker, else those of the lines after the first marker.
   */
  function ListedLanguages(lines: seq<string>): seq<string> {
    match FirstMarker(lines)
    case None => []
    case Some(k) => SectionEntries(lines[k + 1..])
  }

  /** The parser's loop: the result equals the entries of the listing's lines. */
  method ParseLanguages(output: string) returns (languages: seq<string>)
    ensures languages == ListedLanguages(SplitLines(output))
  {
    var lines := SplitLines(output);
    languages := [];
    var inSection := false;
    for i := 0 to |lines|
      invariant inSection <==> FirstMarker(lines[..i]).Some?
      invariant languages == ListedLanguages(lines[..i])
    {
      var line := lines[i];
      ParseStep(lines, i);
      if Contains(line, Marker) {
        inSection := true;
      } else if inSection && !All(line, IsSpace) {
        var m := MatchLine(line);
        if m.Some? {
          languages := languages + [EntryText(m.value)];
        }
      }
    }
    assert lines[..|lines|] == lines;
  }

  /** One step of the parser's loop, with the cases of `LineEntries` spelled out as the loop tests them. */
  lemma ParseStep(lines: seq<string>, i: nat)
    requires i < |lines|
    ensures FirstMarker(lines[..i + 1]).Some? <==> FirstMarker(lines[..i]).Some? || Contains(lines[i], Marker)
    ensures ListedLanguages(lines[..i + 1]) == ListedLanguages(lines[..i]) +
      (if FirstMarker(lines[..i]).Some? && !Contains(lines[i], Marker) && !All(lines[i], IsSpace) && MatchLine(lines[i]).Some?
       then [EntryText(MatchLine(lines[i]).value)] else [])
  {
    assert lines[..i + 1] == lines[..i] + [lines[i]];
    ListedLanguagesSnoc(lines[..i], lines[i]);
  }

  /** Entries of consecutive runs of lines concatenate: input order is kept. */
  lemma {:induction false} SectionEntriesAppend(a: seq<string>, b: seq<string>)
    ensures SectionEntries(a + b) == SectionEntries(a) + SectionEntries(b)
  {
    if a != [] {
      assert (a + b)[1..] == a[1..] + b;
      SectionEntriesAppend(a[1..], b);
    } else {
      assert a + b == b;
    }
  }

  /** A first line without the marker is skipped: it contributes nothing and the rest is read as before. */
  lemma ListedLanguagesSkip(lines: seq<string>)
    requires lines != [] && !Contains(lines[0], Marker)
    ensures FirstMarker(lines).Some? <==> FirstMarker(lines[1..]).Some?
    ensures ListedLanguages(lines) == ListedLanguages(lines[1..])
  {
    match FirstMarker(lines[1..])
    case Some(k) =>
      assert lines[k + 2..] == lines[1..][k + 1..];
    case None =>
  }

  /** One more line adds its entry when the marker has already been seen, and nothing otherwise. */
  lemma {:induction false} ListedLanguagesSnoc(lines: seq<string>, x: string)
    ensures FirstMarker(lines + [x]).Some? <==> FirstMarker(lines).Some? || Contains(x, Marker)
    ensures ListedLanguages(lines + [x])
         == ListedLanguages(lines) + (if FirstMarker(lines).Some? then LineEntries(x) else [])
  {
    var all := lines + [x];
    if lines == [] {
      assert all == [x];
      assert all[1..] == [];
    } else {
      assert all[0] == lines[0];
      assert all[1..] == lines[1..] + [x];
      if Contains(lines[0], Marker) {
        SectionEntriesSnoc(lines[1..], x);
      } else {
        ListedLanguagesSkip(lines);
        ListedLanguagesSkip(all);
        ListedLanguagesSnoc(lines[1..], x);
      }
    }
  }

  lemma SectionEntriesSnoc(lines: seq<string>, x: string)
    ensures SectionEntries(lines + [x]) == SectionEntries(lines) + LineEntries(x)
  {
    SectionEntriesAppend(lines, [x]);
    assert SectionEntries([x]) == LineEntries(x) + SectionEntries([]);
  }

  /** Lines up to and including the first marker line contribute nothing. */
  lemma {:induction false} NothingBeforeMarker(before: seq<string>, marker: string, after: seq<string>)
    requires forall k :: 0 <= k < |before| ==> !Contains(before[k], Marker)
    requires Contains(marker, Marker)
    ensures ListedLanguages(before + [marker] + after) == SectionEntries(after)
  {
    var all := before + [marker] + after;
    if before == [] {
      assert all == [marker] + after;
      assert all[1..] == after;
    } else {
      assert all[0] == before[0];
      assert all[1..] == before[1..] + [marker] + after;
      ListedLanguagesSkip(all);
      NothingBeforeMarker(before[1..], marker, after);
    }
  }

  /** Without a marker line no entry is produced. */
  lemma {:induction false} NoMarkerNoLanguages(lines: seq<string>)
    requires forall k :: 0 <= k < |lines| ==> !Contains(lines[k], Marker)
    ensures ListedLanguages(lines) == []
  {
    if lines != [] {
      ListedLanguagesSkip(lines);
      NoMarkerNoLanguages(lines[1..]);
    }
  }

  /** An entry never holds a newline. */
  lemma EntryTextOneLine(m: LineMatch)
    requires All(m.code, IsWordChar)
    ensures '\n' !in EntryText(m)
  {
    var g := UpToNewline(m.rest);
    assert '\n' !in g;
    StripSubset(g);
    assert '\n' !in m.code;
  }

  /** No entry produced by a line holds a newline. */
  lemma LineEntriesOneLine(line: string)
    ensures forall k :: 0 <= k < |LineEntries(line)| ==> '\n' !in LineEntries(line)[k]
  {
    var es := LineEntries(line);
    if es != [] {
      var m := MatchLine(line).value;
      MatchLineGreedy(line);
      assert es == [EntryText(m)];
      EntryTextOneLine(m);
      assert '\n' !in es[0];
    }
  }

  /** No collected entry holds a newline. */
  lemma {:induction false} SectionEntriesOneLine(lines: seq<string>)
    ensures forall k :: 0 <= k < |SectionEntries(lines)| ==> '\n' !in SectionEntries(lines)[k]
  {
    if lines != [] {
      LineEntriesOneLine(lines[0]);
      SectionEntriesOneLine(lines[1..]);
    }
  }

  /** No entry of the parsed listing holds a newline. */
  lemma ListedLanguagesOneLine(lines: seq<string>)
    ensures forall k :: 0 <= k < |ListedLanguages(lines)| ==> '\n' !in ListedLanguages(lines)[k]
  {
    if FirstMarker(lines).Some? {
      SectionEntriesOneLine(lines[FirstMarker(lines).value + 1..]);
    }
  }

  /** The reply built from the collected entries: `"\n".join` under a title line. */
  function Listing(entries: seq<string>): string {
    if entries == [] then NoneFound else ListingTitle + "\n" + Join(entries, '\n')
  }

  /** A non-empty listing splits back into its title line followed by the entries. */
  lemma ListingLines(entries: seq<string>)
    requires entries != []
    requires forall k :: 0 <= k < |entries| ==> '\n' !in entries[k]
    ensures Split(Listing(entries), '\n') == [ListingTitle] + entries
  {
    var parts := [ListingTitle] + entries;
    assert parts[1..] == entries;
    assert Join(parts, '\n') == Listing(entries);
    SplitJoin(parts, '\n');
  }

  /** The listing is the fixed "none found" text exactly when no entry was collected. */
  lemma ListingNoneFound(entries: seq<string>)
    ensures Listing(entries) == NoneFound <==> entries == []
  {
    if entries != [] {
      assert Listing(entries)[0] == 'A';
    }
  }

  /**
   * A line laid out as code, name and formats columns yields
   * "<code>: <formats>": the middle column (the language name) is the
   * optional second group and is dropped.
   */
  lemma ThreeColumnLine(line: string, code: string, gap: string, name: string, pad: string, formats: string)
    requires line == code + (gap + (name + (pad + formats)))
    requires code != [] && All(code, IsWordChar) && gap != [] && All(gap, IsSpace)
    requires name != [] && All(name, IsWordChar) && pad != [] && All(pad, IsSpace)
    requires formats != [] && !IsSpace(formats[0]) && !IsSpace(formats[|formats| - 1]) && '\n' !in formats
    requires !Contains(line, Marker)
    ensures LineEntries(line) == [code + ": " + formats]
  {
    var m := LineMatch("", code, gap, name, pad, formats);
    ThreeColumnMatch(code, gap, name, pad, formats);
    LineEntriesOfMatch(line, m);
    UpToNewlineWhole(formats);
    StripTrimmed(formats);
  }

  lemma ThreeColumnMatch(code: string, gap: string, name: string, pad: string, formats: string)
    requires code != [] && All(code, IsWordChar) && gap != [] && All(gap, IsSpace)
    requires name != [] && All(name, IsWordChar) && pad != [] && All(pad, IsSpace)
    requires formats != [] && !IsSpace(formats[0])
    ensures IsGreedyMatch(code + (gap + (name + (pad + formats))), LineMatch("", code, gap, name, pad, formats))
  {
    assert (name + (pad + formats))[0] == name[0];
    assert (pad + formats)[0] == pad[0];
  }

  /** Group 3 of a line without a newline is the whole rest. */
  lemma UpToNewlineWhole(s: string)
    requires '\n' !in s
    ensures UpToNewline(s) == s
  {
    assert IndexOf(s, '\n') == |s|;
    assert s[..|s|] == s;
  }

  /**
   * A code followed by a character that is neither whitespace nor a word
   * character, as the hyphen in "en-US", makes the line not match: it yields
   * no entry.
   */
  lemma CodeNotFollowedBySpace(lead: string, code: string, c: char, tail: string)
    requires All(lead, IsSpace) && All(code, IsWordChar) && !IsSpace(c) && !IsWordChar(c)
    ensures LineEntries(lead + (code + ([c] + tail))) == []
  {
    var line := lead + (code + ([c] + tail));
    var t1 := code + ([c] + tail);
    assert code == [] ==> t1[0] == c;
    assert code != [] ==> t1[0] == code[0];
    SpanOfConcat(lead, t1, IsSpace);
    SpanOfConcat(code, [c] + tail, IsWordChar);
    SpanAt([c] + tail, IsSpace, 0);
    assert MatchLine(line) == None;
  }

  /**
   * A line whose code is followed, after the gap, directly by a word and then
   * by punctuation (no name column) loses that word to the optional second
   * group: the entry keeps only what follows it.
   */
  lemma MiddleWordSwallowed(line: string, code: string, gap: string, word: string, rest: string)
    requires line == code + (gap + (word + rest))
    requires code != [] && All(code, IsWordChar) && gap != [] && All(gap, IsSpace)
    requires word != [] && All(word, IsWordChar)
    requires rest != [] && !IsSpace(rest[0]) && !IsWordChar(rest[0]) && !IsSpace(rest[|rest| - 1]) && '\n' !in rest
    requires !Contains(line, Marker)
    ensures LineEntries(line) == [code + ": " + rest]
  {
    SwallowedMatch(code, gap, word, rest);
    LineEntriesOfMatch(line, LineMatch("", code, gap, word, "", rest));
    UpToNewlineWhole(rest);
    StripTrimmed(rest);
  }

  lemma SwallowedMatch(code: string, gap: string, word: string, rest: string)
    requires code != [] && All(code, IsWordChar) && gap != [] && All(gap, IsSpace)
    requires word != [] && All(word, IsWordChar)
    requires rest != [] && !IsSpace(rest[0]) && !IsWordChar(rest[0])
    ensures IsGreedyMatch(code + (gap + (word + rest)), LineMatch("", code, gap, word, "", rest))
  {
    assert "" + rest == rest;
    assert "" + (code + (gap + (word + rest))) == code + (gap + (word + rest));
    assert (word + rest)[0] == word[0];
  }

  /** A line of two words, such as a column-header row, yields the first word with nothing after it. */
  lemma TwoWordLine(line: string, code: string, gap: string, word: string)
    requires line == code + (gap + word)
    requires code != [] && All(code, IsWordChar) && gap != [] && All(gap, IsSpace)
    requires word != [] && All(word, IsWordChar)
    requires !Contains(line, Marker)
    ensures LineEntries(line) == [code + ": "]
  {
    TwoWordMatch(code, gap, word);
    LineEntriesOfMatch(line, LineMatch("", code, gap, word, "", ""));
    EmptyGroup(code);
  }

  lemma TwoWordMatch(code: string, gap: string, word: string)
    requires code != [] && All(code, IsWordChar) && gap != [] && All(gap, IsSpace)
    requires word != [] && All(word, IsWordChar)
    ensures IsGreedyMatch(code + (gap + word), LineMatch("", code, gap, word, "", ""))
  {
    assert word + ("" + "") == word;
    assert "" + (code + (gap + word)) == code + (gap + word);
  }

  lemma EmptyGroup(code: string)
    ensures EntryText(LineMatch("", code, "", "", "", "")) == code + ": "
  {
    assert IndexOf("", '\n') == 0;
    assert Strip("") == "";
  }

  lemma NoMarkerWithoutA(s: string)
    requires 'A' !in s
    ensures !Contains(s, Marker)
  {
    NotContains(s, Marker);
  }

  /** The pieces of "en       vtt, srt  English". */
  lemma FormatsFirstPieces()
    ensures "en" + ("       " + ("vtt" + ", srt  English")) == "en       vtt, srt  English"
  {
    FormatsFirstTail();
  }

  lemma FormatsFirstTail()
    ensures "       " + ("vtt" + ", srt  English") == "       vtt, srt  English"
  {
    assert "vtt" + ", srt  English" == "vtt, srt  English";
  }

  /** The entry of "en       vtt, srt  English" and the character classes of its pieces. */
  lemma FormatsFirstEntry()
    ensures "en" + ": " + ", srt  English" == "en: , srt  English"
    ensures All("en", IsWordChar) && All("       ", IsSpace) && All("vtt", IsWordChar)
    ensures var rest := ", srt  English"; !IsSpace(rest[0]) && !IsWordChar(rest[0]) && !IsSpace(rest[|rest| - 1]) && '\n' !in rest
  {
  }

  /** The line "en       vtt, srt  English" yields "en: , srt  English": the name column is lost and the formats are cut. */
  lemma FormatsFirstExample()
    ensures LineEntries("en       vtt, srt  English") == ["en: , srt  English"]
  {
    FormatsFirstPieces();
    FormatsFirstEntry();
    NoMarkerWithoutA("en       vtt, srt  English");
    MiddleWordSwallowed("en       vtt, srt  English", "en", "       ", "vtt", ", srt  English");
  }

  /** The pieces of "en       English      vtt, srt". */
  lemma ThreeColumnPieces()
    ensures "en" + ("       " + ("English" + ("      " + "vtt, srt"))) == "en       English      vtt, srt"
  {
    ThreeColumnMiddle();
  }

  lemma ThreeColumnMiddle()
    ensures "       " + ("English" + ("      " + "vtt, srt")) == "       English      vtt, srt"
  {
    ThreeColumnTail();
  }

  lemma ThreeColumnTail()
    ensures "English" + ("      " + "vtt, srt") == "English      vtt, srt"
  {
    assert "      " + "vtt, srt" == "      vtt, srt";
  }

  /** The entry of "en       English      vtt, srt" and the character classes of its pieces. */
  lemma ThreeColumnEntry()
    ensures "en" + ": " + "vtt, srt" == "en: vtt, srt"
    ensures All("en", IsWordChar) && All("       ", IsSpace) && All("English", IsWordChar) && All("      ", IsSpace)
    ensures var formats := "vtt, srt"; !IsSpace(formats[0]) && !IsSpace(formats[|formats| - 1]) && '\n' !in formats
  {
  }

  /** The three-column line "en       English      vtt, srt" yields "en: vtt, srt". */
  lemma ThreeColumnExample()
    ensures LineEntries("en       English      vtt, srt") == ["en: vtt, srt"]
  {
    ThreeColumnPieces();
    ThreeColumnEntry();
    NoMarkerWithoutA("en       English      vtt, srt");
    ThreeColumnLine("en       English      vtt, srt", "en", "       ", "English", "      ", "vtt, srt");
  }

  /** The pieces of "Language Formats" and of its entry. */
  lemma HeaderRowPieces()
    ensures "Language" + (" " + "Formats") == "Language Formats"
    ensures "Language" + ": " == "Language: "
    ensures All("Language", IsWordChar) && All(" ", IsSpace) && All("Formats", IsWordChar)
  {
  }

  /** The column-header row "Language Formats" is read as an entry too: "Language: ". */
  lemma HeaderRowExample()
    ensures LineEntries("Language Formats") == ["Language: "]
  {
    HeaderRowPieces();
    NoMarkerWithoutA("Language Formats");
    TwoWordLine("Language Formats", "Language", " ", "Formats");
  }
}
