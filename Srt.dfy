/**
 * The clean-up `download_subtitles` applies to the SubRip (SRT) text it reads
 * back. A first `re.sub` deletes every cue header, that is a sequence number
 * line followed by a `HH:MM:SS,mmm --> HH:MM:SS,mmm` timing line. A second
 * `re.sub` replaces every run matched by `\n\s*\n` with a single newline.
 */
module Srt {
  import opened Text

  /**
   * A fixed-width pattern in which `#` stands for `\d` and every other
   * character for itself.
   */
  predicate Fits(s: string, pat: string) {
    |s| == |pat| && forall k :: 0 <= k < |pat| ==> if pat[k] == '#' then IsDigit(s[k]) else s[k] == pat[k]
  }

  /** `\d{2}:\d{2}:\d{2},\d{3}` */
  const TimestampPattern := "##:##:##,###"

  /** `\n<timestamp> --> <timestamp>\n`: the part of a cue header after its number. */
  const TimingPattern := "\n" + TimestampPattern + " --> " + TimestampPattern + "\n"

  /** `h` is one whole match of `\d+\n<timestamp> --> <timestamp>\n`. */
  predicate IsCueHeader(h: string) {
    |h| > 31 && All(h[..|h| - 31], IsDigit) && Fits(h[|h| - 31..], TimingPattern)
  }

  /** Length of the cue-header match at the start of `s`, or 0 when the pattern does not match there. */
  function CueHeaderLength(s: string): (n: nat)
    ensures n <= |s|
    ensures n > 0 ==> IsCueHeader(s[..n])
  {
    var d := Span(s, IsDigit);
    if 0 < d && d + 31 <= |s| && Fits(s[d..d + 31], TimingPattern) then
      assert s[..d + 31][..d] == s[..d] && s[..d + 31][d..] == s[d..d + 31];
      d + 31
    else 0
  }

  /** Every prefix of `s` that is a cue header is the one the matcher finds. */
  lemma CueHeaderUnique(s: string, k: nat)
    requires 0 < k <= |s| && IsCueHeader(s[..k])
    ensures CueHeaderLength(s) == k
  {
    var h := s[..k];
    var d := k - 31;
    assert forall i :: 0 <= i < d ==> s[i] == h[..d][i];
    assert h[d..] == s[d..d + 31];
    assert s[d] == h[d..][0];
    SpanAt(s, IsDigit, d);
  }

  /** `re.sub(cue_header, '', s)`: scan from the left, delete each match and carry on after it. */
  function StripCueHeaders(s: string): (r: string)
    ensures |r| <= |s|
    decreases |s|
  {
    if s == [] then []
    else
      var n := CueHeaderLength(s);
      if n > 0 then StripCueHeaders(s[n..]) else [s[0]] + StripCueHeaders(s[1..])
  }

  /** No cue header starts anywhere in `s`. */
  predicate NoCueHeader(s: string) {
    forall p :: 0 <= p < |s| ==> CueHeaderLength(s[p..]) == 0
  }

  /** The first pass changes a text exactly when a cue header occurs in it, and then it shortens it. */
  lemma {:induction false} StripCueHeadersUnchanged(s: string)
    ensures StripCueHeaders(s) == s <==> NoCueHeader(s)
    ensures !NoCueHeader(s) ==> |StripCueHeaders(s)| < |s|
    decreases |s|
  {
    if s != [] {
      var n := CueHeaderLength(s);
      if n == 0 {
        var t := StripCueHeaders(s[1..]);
        assert StripCueHeaders(s) == [s[0]] + t;
        assert s == [s[0]] + s[1..];
        assert ([s[0]] + t == s) == (t == s[1..]) by {
          if [s[0]] + t == s { assert t == ([s[0]] + t)[1..]; }
        }
        StripCueHeadersUnchanged(s[1..]);
        NoCueHeaderCons(s);
      } else {
        assert StripCueHeaders(s) == StripCueHeaders(s[n..]);
        assert s[0..] == s;
        assert !NoCueHeader(s);
      }
    }
  }

  /** Where no cue header starts at the front, `s` is free of them exactly when its tail is. */
  lemma NoCueHeaderCons(s: string)
    requires s != [] && CueHeaderLength(s) == 0
    ensures NoCueHeader(s) <==> NoCueHeader(s[1..])
  {
    assert forall p :: 0 <= p < |s| - 1 ==> s[1..][p..] == s[p + 1..];
    assert s[0..] == s;
    if NoCueHeader(s[1..]) {
      forall p | 0 <= p < |s|
        ensures CueHeaderLength(s[p..]) == 0
      {
        if p > 0 {
          assert s[p..] == s[1..][p - 1..];
        }
      }
    }
  }

  /** `h` is one match of `\n\s*\n`: whitespace that starts and ends with a newline. */
  predicate IsBlankRun(h: string) {
    |h| >= 2 && h[0] == '\n' && h[|h| - 1] == '\n' && All(h, IsSpace)
  }

  /**
   * Length of the `\n\s*\n` match at the start of `s`, or 0 when the pattern
   * does not match there. The greedy `\s*` gives back characters until a
   * newline follows, so the match ends at the last newline of the whitespace
   * run after the first newline.
   */
  function BlankRunLength(s: string): (n: nat)
    ensures n <= |s|
    ensures n > 0 ==> IsBlankRun(s[..n])
  {
    if s == [] || s[0] != '\n' then 0
    else
      var w := Span(s[1..], IsSpace);
      var i := LastIndexOf(s[1..][..w], '\n');
      if i < 0 then 0
      else
        assert forall k :: 0 < k < i + 2 ==> s[k] == s[1..][..w][k - 1];
        i + 2
  }

  /** The match found is the longest prefix of `s` the pattern accepts. */
  lemma BlankRunLongest(s: string, k: nat)
    requires k <= |s| && IsBlankRun(s[..k])
    ensures k <= BlankRunLength(s)
  {
    var t := s[1..];
    var w := Span(t, IsSpace);
    assert forall j :: 0 <= j < k - 1 ==> t[j] == s[..k][j + 1];
    assert k - 1 <= w;
    var u := t[..w];
    assert u[k - 2] == s[..k][k - 1];
  }

  /** `re.sub(r'\n\s*\n', '\n', s)`: each match becomes one newline; scanning resumes after it. */
  function CollapseBlankRuns(s: string): (r: string)
    ensures |r| <= |s|
    decreases |s|
  {
    if s == [] then []
    else
      var n := BlankRunLength(s);
      if n > 0 then "\n" + CollapseBlankRuns(s[n..]) else [s[0]] + CollapseBlankRuns(s[1..])
  }

  /** No two newlines of `s` are separated by whitespace only. */
  predicate NoBlankRun(s: string) {
    forall i, j :: 0 <= i < j <= |s| ==> !IsBlankRun(s[i..j])
  }

  /** Text without a newline passes the second pass unchanged. */
  lemma {:induction false} CollapseLine(w: string, v: string)
    requires '\n' !in w
    ensures CollapseBlankRuns(w + v) == w + CollapseBlankRuns(v)
    decreases |w|
  {
    if w != [] {
      assert (w + v)[0] == w[0];
      assert (w + v)[1..] == w[1..] + v;
      CollapseLine(w[1..], v);
    } else {
      assert w + v == v;
    }
  }

  /**
   * After the first newline of a text, the second pass resumes at a point
   * from which only whitespace without a newline comes before the next
   * non-whitespace character.
   */
  lemma AfterNewline(s: string, m: nat, e: nat)
    requires s != [] && s[0] == '\n'
    requires m == (if BlankRunLength(s) > 0 then BlankRunLength(s) else 1)
    requires e == 1 + Span(s[1..], IsSpace)
    ensures m <= e <= |s|
    ensures forall k :: 0 <= k < e - m ==> IsSpace(s[m..][k]) && s[m..][k] != '\n'
    ensures !StartsWith(s[m..][e - m..], IsSpace)
  {
    var t := s[1..];
    var w := Span(t, IsSpace);
    var u := t[..w];
    var i := LastIndexOf(u, '\n');
    assert forall k :: 1 <= k < 1 + w ==> s[k] == u[k - 1];
    assert s[m..][e - m..] == s[e..];
    assert 1 + w < |s| ==> s[1 + w..][0] == t[w];
  }

  /** A newline followed by a stretch of whitespace without newlines and then something else starts no blank run. */
  lemma NewlineNoBlankRun(w: string, u: string)
    requires All(w, IsSpace) && '\n' !in w && !StartsWith(u, IsSpace)
    requires NoBlankRun(w + u)
    ensures NoBlankRun("\n" + (w + u))
  {
    var x := w + u;
    var r := "\n" + x;
    forall i, j | 0 <= i < j <= |r|
      ensures !IsBlankRun(r[i..j])
    {
      if 0 < i {
        assert r[i..j] == x[i - 1..j - 1];
      } else if 2 <= j <= |w| + 1 {
        assert r[i..j][j - 1] == w[j - 2];
      } else if |w| + 1 < j {
        assert r[i..j][|w| + 1] == u[0];
      }
    }
  }

  /** A character other than a newline in front of a text starts no blank run. */
  lemma ConsNoBlankRun(c: char, x: string)
    requires c != '\n' && NoBlankRun(x)
    ensures NoBlankRun([c] + x)
  {
    var r := [c] + x;
    forall i, j | 0 <= i < j <= |r|
      ensures !IsBlankRun(r[i..j])
    {
      if 0 < i {
        assert r[i..j] == x[i - 1..j - 1];
      } else {
        assert r[i..j][0] == c;
      }
    }
  }

  /** After the second pass no two newlines are separated by whitespace only. */
  lemma {:induction false} CollapseLeavesNoBlankRun(s: string)
    ensures NoBlankRun(CollapseBlankRuns(s))
    decreases |s|
  {
    if s == [] {
    } else if s[0] != '\n' {
      CollapseLeavesNoBlankRun(s[1..]);
      ConsNoBlankRun(s[0], CollapseBlankRuns(s[1..]));
    } else {
      var n := BlankRunLength(s);
      var m := if n > 0 then n else 1;
      var e := 1 + Span(s[1..], IsSpace);
      AfterNewline(s, m, e);
      assert CollapseBlankRuns(s) == "\n" + CollapseBlankRuns(s[m..]);
      CollapseLeavesNoBlankRun(s[m..]);
      NewlineThenSpaces(s[m..], e - m);
    }
  }

  /**
   * Text that starts with whitespace without newlines up to position `e`, then
   * something other than whitespace, keeps that prefix through the second pass;
   * a newline in front of its result then starts no blank run.
   */
  lemma NewlineThenSpaces(x: string, e: nat)
    requires e <= |x| && (forall k :: 0 <= k < e ==> IsSpace(x[k]) && x[k] != '\n') && !StartsWith(x[e..], IsSpace)
    requires NoBlankRun(CollapseBlankRuns(x))
    ensures NoBlankRun("\n" + CollapseBlankRuns(x))
  {
    var w := x[..e];
    var v := x[e..];
    SpacesPrefix(x, e);
    CollapseLine(w, v);
    CollapseKeepsFirst(v);
    NewlineNoBlankRun(w, CollapseBlankRuns(v));
  }

  lemma SpacesPrefix(x: string, e: nat)
    requires e <= |x| && forall k :: 0 <= k < e ==> IsSpace(x[k]) && x[k] != '\n'
    ensures x == x[..e] + x[e..] && All(x[..e], IsSpace) && '\n' !in x[..e]
  {
    assert forall k :: 0 <= k < e ==> x[..e][k] == x[k];
  }

  /** A text that does not start with whitespace keeps its first character in the second pass. */
  lemma CollapseKeepsFirst(v: string)
    requires !StartsWith(v, IsSpace)
    ensures !StartsWith(CollapseBlankRuns(v), IsSpace)
  {
    if v != [] {
      assert BlankRunLength(v) == 0;
    }
  }

  /** Text in which no two newlines are separated by whitespace only is left unchanged, and only such text is. */
  lemma {:induction false} CollapseUnchanged(s: string)
    ensures CollapseBlankRuns(s) == s <==> NoBlankRun(s)
    decreases |s|
  {
    CollapseLeavesNoBlankRun(s);
    if s != [] && NoBlankRun(s) {
      var n := BlankRunLength(s);
      assert s[0..n] == s[..n];
      assert n == 0;
      NoBlankRunTail(s);
      CollapseUnchanged(s[1..]);
      assert s == [s[0]] + s[1..];
    }
  }

  /** A text free of blank runs has a tail free of them. */
  lemma NoBlankRunTail(s: string)
    requires s != [] && NoBlankRun(s)
    ensures NoBlankRun(s[1..])
  {
    forall i, j | 0 <= i < j <= |s| - 1
      ensures !IsBlankRun(s[1..][i..j])
    {
      assert s[1..][i..j] == s[i + 1..j + 1];
    }
  }

  /** The whole clean-up of `download_subtitles`. */
  function Clean(s: string): string {
    CollapseBlankRuns(StripCueHeaders(s))
  }

  /** The cleaned text has no two newlines separated by whitespace only. */
  lemma CleanLeavesNoBlankRun(s: string)
    ensures NoBlankRun(Clean(s))
  {
    CollapseLeavesNoBlankRun(StripCueHeaders(s));
  }

  /** The clean-up leaves a text unchanged exactly when it holds no cue header and no blank run. */
  lemma CleanUnchanged(s: string)
    ensures Clean(s) == s <==> NoCueHeader(s) && NoBlankRun(s)
  {
    StripCueHeadersUnchanged(s);
    CollapseUnchanged(StripCueHeaders(s));
    CollapseUnchanged(s);
  }

  /** One SubRip cue as the tool writes it: a sequence number, a start and an end time, and a line of text. */
  datatype Cue = Cue(number: string, start: string, end: string, text: string)

  /** The number is digits, both times are timestamps, and the text is one line that is not blank. */
  predicate WellFormedCue(c: Cue) {
    && c.number != [] && All(c.number, IsDigit) && Fits(c.start, TimestampPattern) && Fits(c.end, TimestampPattern)
    && '\n' !in c.text && !All(c.text, IsSpace)
  }

  /** Every cue of `cues` is well formed. */
  predicate WellFormedCues(cues: seq<Cue>) {
    cues == [] || (WellFormedCue(cues[0]) && WellFormedCues(cues[1..]))
  }

  /** The cue's number line and timing line. */
  function CueHeader(c: Cue): string {
    c.number + TimingLine(c.start, c.end)
  }

  /** The line break after the number, the timing line and its line break. */
  function TimingLine(start: string, end: string): string {
    "\n" + start + " --> " + end + "\n"
  }

  /** A SubRip document: the cues' blocks, each ended by a newline, with an empty line between two blocks. */
  function Document(cues: seq<Cue>): string {
    if cues == [] then ""
    else if |cues| == 1 then CueHeader(cues[0]) + (cues[0].text + "\n" + "")
    else CueHeader(cues[0]) + (cues[0].text + "\n" + ("\n" + Document(cues[1..])))
  }

  /** The texts of the cues, in order. */
  function Texts(cues: seq<Cue>): (texts: seq<string>)
    ensures |texts| == |cues|
    ensures forall k :: 0 <= k < |cues| ==> texts[k] == cues[k].text
  {
    if cues == [] then [] else [cues[0].text] + Texts(cues[1..])
  }

  /** Texts that fit two patterns side by side fit the patterns side by side. */
  lemma FitsConcat(a: string, p: string, b: string, q: string)
    requires Fits(a, p) && Fits(b, q)
    ensures Fits(a + b, p + q)
  {
    assert forall k :: 0 <= k < |p| ==> (a + b)[k] == a[k] && (p + q)[k] == p[k];
    assert forall k :: |p| <= k < |p| + |q| ==> (a + b)[k] == b[k - |p|] && (p + q)[k] == q[k - |p|];
  }

  /** A text without `#` fits itself. */
  lemma FitsItself(s: string)
    requires '#' !in s
    ensures Fits(s, s)
  {
  }

  /** The timing line of two well-formed timestamps fits the timing part of the first pattern. */
  lemma TimingFits(start: string, end: string)
    requires Fits(start, TimestampPattern) && Fits(end, TimestampPattern)
    ensures Fits(TimingLine(start, end), TimingPattern)
  {
    FitsItself("\n");
    FitsItself(" --> ");
    FitsConcat("\n", "\n", start, TimestampPattern);
    FitsConcat("\n" + start, "\n" + TimestampPattern, " --> ", " --> ");
    FitsConcat("\n" + start + " --> ", "\n" + TimestampPattern + " --> ", end, TimestampPattern);
    FitsConcat("\n" + start + " --> " + end, "\n" + TimestampPattern + " --> " + TimestampPattern, "\n", "\n");
  }

  /** The header of a well-formed cue is one match of the first pattern. */
  lemma CueHeaderMatches(c: Cue)
    requires WellFormedCue(c)
    ensures IsCueHeader(CueHeader(c))
  {
    TimingFits(c.start, c.end);
    HeaderOf(c.number, TimingLine(c.start, c.end));
  }

  /** Digits followed by a text that fits the timing part make up a cue header. */
  lemma HeaderOf(n: string, t: string)
    requires n != [] && All(n, IsDigit) && Fits(t, TimingPattern)
    ensures IsCueHeader(n + t)
  {
    var h := n + t;
    assert h[..|n|] == n && h[|n|..] == t;
  }

  /** A cue header at the front is deleted, and the scan carries on after it. */
  lemma StripAfterHeader(h: string, rest: string)
    requires IsCueHeader(h)
    ensures StripCueHeaders(h + rest) == StripCueHeaders(rest)
  {
    assert (h + rest)[..|h|] == h;
    CueHeaderUnique(h + rest, |h|);
    assert (h + rest)[|h|..] == rest;
  }

  /** A header cannot start on a line whose newline is followed by something other than a digit. */
  lemma NoHeaderInLine(t: string, rest: string)
    requires '\n' !in t && !StartsWith(rest, IsDigit)
    ensures CueHeaderLength(t + "\n" + rest) == 0
  {
    var x := t + "\n" + rest;
    assert x[|t|] == '\n';
    var d := Span(x, IsDigit);
    assert d <= |t|;
    if d + 31 <= |x| {
      var y := x[d..d + 31];
      assert TimingPattern[0] == '\n' && TimingPattern[1] == '#';
      if d < |t| {
        assert y[0] == t[d] && t[d] != '\n';
      } else {
        assert y[1] == rest[0];
      }
    }
  }

  /** Where no header starts, the first pass keeps the first character and scans on from the next. */
  lemma StripStep(x: string)
    requires x != [] && CueHeaderLength(x) == 0
    ensures StripCueHeaders(x) == [x[0]] + StripCueHeaders(x[1..])
  {
  }

  /** Where no header starts on a line, the first pass keeps the line's first character. */
  lemma StripLineStep(t: string, rest: string)
    requires t != [] && CueHeaderLength(t + "\n" + rest) == 0
    ensures StripCueHeaders(t + "\n" + rest) == [t[0]] + StripCueHeaders(t[1..] + "\n" + rest)
  {
    var x := t + "\n" + rest;
    assert x[0] == t[0] && x[1..] == t[1..] + "\n" + rest;
    StripStep(x);
  }

  /** Putting back the first character of a line: `[t[0]] + (t[1..] + "\n" + a)` is `t + "\n" + a`. */
  lemma ConsLine(t: string, a: string, b: string, c: string)
    requires t != [] && c == [t[0]] + b && b == t[1..] + "\n" + a
    ensures c == t + "\n" + a
  {
    assert t == [t[0]] + t[1..];
  }

  /** A line followed by something other than a digit passes the first pass unchanged. */
  lemma {:induction false} StripLine(t: string, rest: string)
    requires '\n' !in t && !StartsWith(rest, IsDigit)
    ensures StripCueHeaders(t + "\n" + rest) == t + "\n" + StripCueHeaders(rest)
    decreases |t|
  {
    NoHeaderInLine(t, rest);
    if t == [] {
      StripStep("\n" + rest);
      assert ("\n" + rest)[1..] == rest;
      assert t + "\n" + rest == "\n" + rest;
    } else {
      StripLineStep(t, rest);
      StripLine(t[1..], rest);
      ConsLine(t, StripCueHeaders(rest), StripCueHeaders(t[1..] + "\n" + rest), StripCueHeaders(t + "\n" + rest));
    }
  }

  /** The text lines the first pass leaves of a document: each ended by a newline, an empty line between two. */
  function TextBlocks(cues: seq<Cue>): string {
    if cues == [] then ""
    else if |cues| == 1 then cues[0].text + "\n" + ""
    else cues[0].text + "\n" + ("\n" + TextBlocks(cues[1..]))
  }

  /** A newline passes the first pass unchanged. */
  lemma StripNewline(rest: string)
    ensures StripCueHeaders("\n" + rest) == "\n" + StripCueHeaders(rest)
  {
    var x := "\n" + rest;
    assert x[0] == '\n' && x[1..] == rest;
    StripStep(x);
  }

  /** The first pass deletes exactly the number and timing lines of a document. */
  lemma {:induction false} StripDocument(cues: seq<Cue>)
    requires WellFormedCues(cues)
    ensures StripCueHeaders(Document(cues)) == TextBlocks(cues)
  {
    if cues != [] {
      var c := cues[0];
      CueHeaderMatches(c);
      if |cues| == 1 {
        StripAfterHeader(CueHeader(c), c.text + "\n" + "");
        StripLine(c.text, "");
      } else {
        var tail := Document(cues[1..]);
        StripAfterHeader(CueHeader(c), c.text + "\n" + ("\n" + tail));
        StripLine(c.text, "\n" + tail);
        StripNewline(tail);
        StripDocument(cues[1..]);
      }
    }
  }

  /** A single newline at the end is kept by the second pass. */
  lemma CollapseNewline()
    ensures CollapseBlankRuns("\n" + "") == "\n"
  {
    assert "\n" + "" == "\n";
    assert BlankRunLength("\n") == 0;
  }

  /** A line without a newline passes the second pass unchanged. */
  lemma CollapseTextLine(t: string, rest: string)
    requires '\n' !in t
    ensures CollapseBlankRuns(t + "\n" + rest) == t + CollapseBlankRuns("\n" + rest)
  {
    assert t + "\n" + rest == t + ("\n" + rest);
    CollapseLine(t, "\n" + rest);
  }

  /** Two newlines before a line that is not blank are one blank run of length two. */
  lemma BlankRunOfTwo(t: string, v: string)
    requires '\n' !in t && !All(t, IsSpace)
    ensures BlankRunLength("\n" + ("\n" + (t + v))) == 2
  {
    var s := "\n" + ("\n" + (t + v));
    var q :| 0 <= q < |t| && !IsSpace(t[q]);
    assert s[1..][1 + q] == t[q];
    var w := Span(s[1..], IsSpace);
    assert w <= 1 + q;
    var u := s[1..][..w];
    assert u[0] == '\n';
    assert forall k :: 1 <= k < w ==> u[k] == t[k - 1];
    var i := LastIndexOf(u, '\n');
    assert i == 0;
  }

  /** A blank run of two newlines becomes one newline. */
  lemma CollapsePair(u: string)
    requires BlankRunLength("\n" + ("\n" + u)) == 2
    ensures CollapseBlankRuns("\n" + ("\n" + u)) == "\n" + CollapseBlankRuns(u)
  {
    var x := "\n" + ("\n" + u);
    assert x[2..] == u;
  }

  /** The text lines left of a document start with a line that is not blank. */
  lemma TextBlocksStart(cues: seq<Cue>)
    requires cues != [] && WellFormedCue(cues[0])
    ensures BlankRunLength("\n" + ("\n" + TextBlocks(cues))) == 2
  {
    var t := cues[0].text;
    var v := if |cues| == 1 then "\n" + "" else "\n" + ("\n" + TextBlocks(cues[1..]));
    assert TextBlocks(cues) == t + v;
    BlankRunOfTwo(t, v);
  }

  /** Joining a first piece in front of the others and ending with a newline. */
  lemma JoinAlgebra(t: string, j: string, a: string, b: string)
    requires a == t + ("\n" + (j + "\n")) && b == t + "\n" + j
    ensures a == b + "\n"
  {
  }

  /** The second pass turns the text lines into the texts joined by newlines, with a final newline. */
  lemma {:induction false} CollapseTextBlocks(cues: seq<Cue>)
    requires cues != []
    requires WellFormedCues(cues)
    ensures CollapseBlankRuns(TextBlocks(cues)) == Join(Texts(cues), '\n') + "\n"
  {
    var c := cues[0];
    if |cues| == 1 {
      CollapseTextLine(c.text, "");
      CollapseNewline();
      assert Texts(cues) == [c.text];
    } else {
      var tail := TextBlocks(cues[1..]);
      CollapseTextLine(c.text, "\n" + tail);
      TextBlocksStart(cues[1..]);
      CollapsePair(tail);
      CollapseTextBlocks(cues[1..]);
      JoinCons(c.text, Texts(cues[1..]), '\n');
      assert Texts(cues) == [c.text] + Texts(cues[1..]);
      JoinAlgebra(c.text, Join(Texts(cues[1..]), '\n'), CollapseBlankRuns(TextBlocks(cues)), Join(Texts(cues), '\n'));
    }
  }

  /**
   * The clean-up of a well-formed SubRip document is the texts of its cues,
   * each on one line, in order, with a final newline.
   */
  lemma CleanDocument(cues: seq<Cue>)
    requires cues != []
    requires WellFormedCues(cues)
    ensures Clean(Document(cues)) == Join(Texts(cues), '\n') + "\n"
  {
    StripDocument(cues);
    CollapseTextBlocks(cues);
    CleanOf(Document(cues), TextBlocks(cues), Join(Texts(cues), '\n') + "\n");
  }

  /** The clean-up is the second pass over the result of the first. */
  lemma CleanOf(s: string, t: string, u: string)
    requires StripCueHeaders(s) == t && CollapseBlankRuns(t) == u
    ensures Clean(s) == u
  {
  }

  /*
   * The clean-up is not idempotent. A cue number separated from its timing
   * line by a blank line holds no cue header, so the first pass keeps it;
   * the second pass then closes the blank line and forms a cue header, which
   * a second clean-up deletes.
   */

  /** A timestamp starts with a digit and holds no newline. */
  lemma TimestampOneLine(t: string)
    requires Fits(t, TimestampPattern)
    ensures t != [] && IsDigit(t[0]) && '\n' !in t
  {
  }

  /** A cue number holds no newline. */
  lemma DigitsOneLine(n: string)
    requires All(n, IsDigit)
    ensures '\n' !in n
  {
  }

  /** The times of a timing line are one line that starts with a digit. */
  lemma TimesOneLine(start: string, end: string)
    requires Fits(start, TimestampPattern) && Fits(end, TimestampPattern)
    ensures var t := start + " --> " + end;
      && '\n' !in t && !All(t, IsSpace) && TimingLine(start, end) == "\n" + (t + "\n")
  {
    TimestampOneLine(start);
    TimestampOneLine(end);
    var t := start + " --> " + end;
    assert t[0] == start[0];
    assert '\n' !in " --> ";
  }

  /** The first pass keeps a timing line on its own. */
  lemma StripTimingLine(start: string, end: string)
    requires Fits(start, TimestampPattern) && Fits(end, TimestampPattern)
    ensures StripCueHeaders(TimingLine(start, end)) == TimingLine(start, end)
  {
    var t := start + " --> " + end;
    TimesOneLine(start, end);
    assert t + "\n" == t + "\n" + "";
    StripNewline(t + "\n" + "");
    StripLine(t, "");
  }

  /** The first pass keeps a number, a blank line and a timing line. */
  lemma StripSplitHeader(n: string, start: string, end: string)
    requires n != [] && All(n, IsDigit)
    requires Fits(start, TimestampPattern) && Fits(end, TimestampPattern)
    ensures StripCueHeaders(n + "\n" + TimingLine(start, end)) == n + "\n" + TimingLine(start, end)
  {
    DigitsOneLine(n);
    TimesOneLine(start, end);
    StripLine(n, TimingLine(start, end));
    StripTimingLine(start, end);
  }

  /** The second pass closes the blank line between the number and the timing line. */
  lemma CollapseSplitHeader(n: string, start: string, end: string)
    requires '\n' !in n
    requires Fits(start, TimestampPattern) && Fits(end, TimestampPattern)
    ensures CollapseBlankRuns(n + "\n" + TimingLine(start, end)) == n + TimingLine(start, end)
  {
    var t := start + " --> " + end;
    TimesOneLine(start, end);
    var v := "\n" + ("\n" + (t + "\n"));
    assert n + "\n" + TimingLine(start, end) == n + v;
    CollapseLine(n, v);
    BlankRunOfTwo(t, "\n");
    CollapsePair(t + "\n");
    assert t + "\n" == t + "\n" + "";
    CollapseTextLine(t, "");
    CollapseNewline();
  }

  /** The clean-up deletes a cue header whole. */
  lemma CleanHeader(h: string)
    requires IsCueHeader(h)
    ensures Clean(h) == ""
  {
    StripAfterHeader(h, "");
    assert h + "" == h;
    assert CollapseBlankRuns("") == "";
  }

  /**
   * A number, a blank line and a timing line hold no cue header; the clean-up
   * turns them into a cue header, and a second clean-up deletes it.
   */
  lemma CleanTwice(n: string, start: string, end: string)
    requires n != [] && All(n, IsDigit)
    requires Fits(start, TimestampPattern) && Fits(end, TimestampPattern)
    ensures var x := n + "\n" + TimingLine(start, end);
      && NoCueHeader(x)
      && Clean(x) == n + TimingLine(start, end)
      && Clean(Clean(x)) == ""
      && Clean(Clean(x)) != Clean(x)
  {
    var x := n + "\n" + TimingLine(start, end);
    StripSplitHeader(n, start, end);
    StripCueHeadersUnchanged(x);
    DigitsOneLine(n);
    CollapseSplitHeader(n, start, end);
    TimingFits(start, end);
    HeaderOf(n, TimingLine(start, end));
    CleanHeader(n + TimingLine(start, end));
  }

  /**
   * "1", a blank line and "00:00:01,000 --> 00:00:02,000" hold no cue header
   * and are cleaned into one; cleaning again leaves nothing.
   */
  lemma CleanTwiceExample()
    ensures Clean("1" + "\n" + "\n00:00:01,000 --> 00:00:02,000\n") == "1" + "\n00:00:01,000 --> 00:00:02,000\n"
    ensures Clean(Clean("1" + "\n" + "\n00:00:01,000 --> 00:00:02,000\n")) == ""
  {
    ExampleTimestamps();
    FirstTimingLine();
    assert All("1", IsDigit);
    CleanTwice("1", "00:00:01,000", "00:00:02,000");
  }

  /** The two cues of the example below. */
  function ExampleCues(): seq<Cue> {
    [Cue("1", "00:00:01,000", "00:00:02,000", "Hello"), Cue("2", "00:00:02,500", "00:00:03,000", "World")]
  }

  lemma ExampleTimestamps()
    ensures Fits("00:00:01,000", TimestampPattern) && Fits("00:00:02,000", TimestampPattern)
    ensures Fits("00:00:02,500", TimestampPattern) && Fits("00:00:03,000", TimestampPattern)
  {
  }

  lemma ExampleTexts()
    ensures !All("Hello", IsSpace) && !All("World", IsSpace)
    ensures '\n' !in "Hello" && '\n' !in "World"
  {
    assert !IsSpace("Hello"[0]) && !IsSpace("World"[0]);
  }

  lemma ExampleCuesWellFormed()
    ensures WellFormedCues(ExampleCues())
  {
    var cues := ExampleCues();
    ExampleTimestamps();
    ExampleTexts();
    assert All(cues[0].number, IsDigit) && All(cues[1].number, IsDigit);
    assert WellFormedCue(cues[0]) && WellFormedCue(cues[1]);
    assert cues[1..][1..] == [];
  }

  /** A document of two cues, unfolded. */
  lemma DocumentOfTwo(c: Cue, d: Cue)
    ensures Document([c, d]) == CueHeader(c) + (c.text + "\n" + ("\n" + (CueHeader(d) + (d.text + "\n" + ""))))
  {
    assert [c, d][1..] == [d];
  }

  lemma FirstTimingLine()
    ensures TimingLine("00:00:01,000", "00:00:02,000") == "\n00:00:01,000 --> 00:00:02,000\n"
  {
    assert "\n" + "00:00:01,000" == "\n00:00:01,000";
    assert "\n00:00:01,000" + " --> " == "\n00:00:01,000 --> ";
    assert "\n00:00:01,000 --> " + "00:00:02,000" == "\n00:00:01,000 --> 00:00:02,000";
  }

  lemma SecondTimingLine()
    ensures TimingLine("00:00:02,500", "00:00:03,000") == "\n00:00:02,500 --> 00:00:03,000\n"
  {
    assert "\n" + "00:00:02,500" == "\n00:00:02,500";
    assert "\n00:00:02,500" + " --> " == "\n00:00:02,500 --> ";
    assert "\n00:00:02,500 --> " + "00:00:03,000" == "\n00:00:02,500 --> 00:00:03,000";
  }

  /** The example document, one SubRip line per piece. */
  lemma ExampleDocument()
    ensures Document(ExampleCues())
      == "1" + "\n00:00:01,000 --> 00:00:02,000\n" + ("Hello\n" + ("\n" + ("2" + "\n00:00:02,500 --> 00:00:03,000\n" + "World\n")))
  {
    var cues := ExampleCues();
    DocumentOfTwo(cues[0], cues[1]);
    FirstTimingLine();
    SecondTimingLine();
    assert "Hello" + "\n" == "Hello\n";
    assert "World" + "\n" + "" == "World\n";
  }

  /** The texts of the example, joined, with a final newline. */
  lemma ExampleJoin()
    ensures Join(Texts(ExampleCues()), '\n') + "\n" == "Hello\nWorld\n"
  {
    var cues := ExampleCues();
    assert Texts(cues) == ["Hello"] + ["World"];
    JoinCons("Hello", ["World"], '\n');
  }

  /**
   * The two-cue document with the texts "Hello" and "World" (written here one
   * SubRip line per piece) is cleaned to those two lines.
   */
  lemma CleanExample()
    ensures Clean("1" + "\n00:00:01,000 --> 00:00:02,000\n" + ("Hello\n" + ("\n" + ("2" + "\n00:00:02,500 --> 00:00:03,000\n" + "World\n"))))
      == "Hello\nWorld\n"
  {
    ExampleDocument();
    ExampleCuesWellFormed();
    CleanDocument(ExampleCues());
    ExampleJoin();
  }
}
