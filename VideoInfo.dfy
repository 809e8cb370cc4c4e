/**
 * The reformatting `get_video_info` applies to the tool's output. The tool
 * prints five fields, one per line: title, duration, channel, upload date
 * (`YYYYMMDD`) and view count. The server strips the output, splits it at
 * `\n`, needs at least five lines, rewrites an eight-character date as
 * `YYYY-MM-DD` and answers with five labelled lines.
 */
module VideoInfo {
  import opened Wrappers
  import opened Text

  const ParseFailure := "Couldn't parse video information: "

  /** The five fields the server reads, in the order the tool prints them. */
  datatype Info = Info(title: string, duration: string, channel: string, uploadDate: string, views: string)

  /** No field of `info` holds a newline, so each is one output line. */
  predicate OneLineFields(info: Info) {
    && '\n' !in info.title && '\n' !in info.duration && '\n' !in info.channel
    && '\n' !in info.uploadDate && '\n' !in info.views
  }

  /**
   * An upload date of exactly eight characters gets a dash after its fourth
   * and after its sixth character; any other date is kept as it is.
   */
  function FormatDate(d: string): (r: string)
    ensures |d| == 8 ==> |r| == 10 && r[4] == '-' && r[7] == '-' && r[..4] + r[5..7] + r[8..] == d
    ensures |d| != 8 ==> r == d
  {
    if |d| == 8 then
      var r := d[..4] + "-" + d[4..6] + "-" + d[6..8];
      assert r[..4] == d[..4] && r[5..7] == d[4..6] && r[8..] == d[6..8];
      assert d == d[..4] + d[4..6] + d[6..8];
      r
    else d
  }

  /** The reformat adds exactly two dashes to an eight-character date and no other character. */
  lemma FormatDateDashes(d: string)
    requires |d| == 8
    ensures multiset(FormatDate(d)) == multiset(d) + multiset{'-', '-'}
    ensures multiset(FormatDate(d))['-'] == multiset(d)['-'] + 2
  {
    var r := FormatDate(d);
    assert r == d[..4] + "-" + d[4..6] + "-" + d[6..8];
    assert d == d[..4] + d[4..6] + d[6..8];
    assert multiset(d) == multiset(d[..4]) + multiset(d[4..6]) + multiset(d[6..8]);
    assert multiset(r) == multiset(d[..4]) + multiset{'-'} + multiset(d[4..6]) + multiset{'-'} + multiset(d[6..8]);
  }

  /** `output.strip().split('\n')`, read as the five fields when there are at least five lines. */
  function ParseInfo(output: string): Option<Info> {
    var lines := Split(Strip(output), '\n');
    if |lines| >= 5 then Some(Info(lines[0], lines[1], lines[2], FormatDate(lines[3]), lines[4])) else None
  }

  /** The five labelled lines of the reply, without a final newline. */
  function LabelledLines(info: Info): seq<string> {
    ["Title: " + info.title, "Duration: " + info.duration, "Channel: " + info.channel,
     "Upload Date: " + info.uploadDate, "Views: " + info.views]
  }

  /** The reply for parsed fields: one labelled line per field, a newline after each but the last. */
  function Render(info: Info): string {
    "Title: " + info.title + "\n" + "Duration: " + info.duration + "\n" + "Channel: " + info.channel + "\n"
    + "Upload Date: " + info.uploadDate + "\n" + "Views: " + info.views
  }

  /** The reply `get_video_info` builds from the tool's output. */
  function InfoText(output: string): string {
    match ParseInfo(output)
    case Some(info) => Render(info)
    case None => ParseFailure + output
  }

  /** The reply is the labelled lines joined by newlines. */
  lemma RenderJoin(info: Info)
    ensures Render(info) == Join(LabelledLines(info), '\n')
  {
    var ls := LabelledLines(info);
    JoinFive(ls[0], ls[1], ls[2], ls[3], ls[4]);
    RenderConcat(info);
  }

  lemma RenderConcat(info: Info)
    ensures var ls := LabelledLines(info);
      Render(info) == ls[0] + "\n" + ls[1] + "\n" + ls[2] + "\n" + ls[3] + "\n" + ls[4]
  {
  }

  /** No labelled line holds a newline when no field does. */
  lemma LabelledLinesOneLine(info: Info)
    requires OneLineFields(info)
    ensures forall k :: 0 <= k < |LabelledLines(info)| ==> '\n' !in LabelledLines(info)[k]
  {
    assert '\n' !in "Title: " && '\n' !in "Duration: " && '\n' !in "Channel: ";
    assert '\n' !in "Upload Date: " && '\n' !in "Views: ";
  }

  /** The reply splits back into exactly the five labelled lines: there is no sixth, empty one. */
  lemma RenderLines(info: Info)
    requires OneLineFields(info)
    ensures Split(Render(info), '\n') == LabelledLines(info)
  {
    RenderJoin(info);
    LabelledLinesOneLine(info);
    SplitJoin(LabelledLines(info), '\n');
  }

  /** Five pieces joined by newlines. */
  lemma JoinFive(a: string, b: string, c: string, d: string, e: string)
    ensures Join([a, b, c, d, e], '\n') == a + "\n" + b + "\n" + c + "\n" + d + "\n" + e
  {
    JoinCons(d, [e], '\n');
    assert [d, e] == [d] + [e];
    JoinCons(c, [d, e], '\n');
    assert [c, d, e] == [c] + [d, e];
    JoinCons(b, [c, d, e], '\n');
    assert [b, c, d, e] == [b] + [c, d, e];
    JoinCons(a, [b, c, d, e], '\n');
    assert [a, b, c, d, e] == [a] + [b, c, d, e];
  }

  /** The output parses exactly when its stripped text holds at least four newlines, that is at least five lines. */
  lemma ParseInfoLineCount(output: string)
    ensures ParseInfo(output).Some? <==> multiset(Strip(output))['\n'] >= 4
  {
    SplitCount(Strip(output), '\n');
  }

  /** A parsed reply starts with "Title: ", so it can never be taken for the failure message. */
  lemma InfoTextFailure(output: string)
    ensures InfoText(output) == ParseFailure + output <==> ParseInfo(output).None?
  {
    if ParseInfo(output).Some? {
      assert InfoText(output)[0] == 'T';
      assert (ParseFailure + output)[0] == 'C';
    }
  }

  /** A reply starts with "T" of "Title: " when the output parses, and with "C" of the failure message otherwise. */
  lemma InfoTextStart(output: string)
    ensures InfoText(output) != [] && InfoText(output)[0] == (if ParseInfo(output).Some? then 'T' else 'C')
  {
    match ParseInfo(output)
    case Some(info) =>
      RenderStart(info);
    case None =>
      assert (ParseFailure + output)[0] == ParseFailure[0];
  }

  lemma RenderStart(info: Info)
    ensures Render(info) != [] && Render(info)[0] == 'T'
  {
    RenderJoin(info);
    var ls := LabelledLines(info);
    JoinCons(ls[0], ls[1..], '\n');
    assert ls == [ls[0]] + ls[1..];
    assert ls[0][0] == 'T';
  }

  /** Empty or whitespace-only output is one (empty) line: the reply is the failure message. */
  lemma BlankOutputFails(output: string)
    requires All(output, IsSpace)
    ensures InfoText(output) == ParseFailure + output
  {
    assert Strip(output) == [];
    assert IndexOf([], '\n') == 0;
  }

  /**
   * Only the first five lines are read: whatever lines follow them are
   * ignored, and the fourth is the one whose date is reformatted.
   */
  lemma FirstFiveLines(output: string, fields: seq<string>, extra: seq<string>)
    requires |fields| == 5
    requires forall k :: 0 <= k < |fields + extra| ==> '\n' !in (fields + extra)[k]
    requires Strip(output) == Join(fields + extra, '\n')
    ensures InfoText(output) == Render(Info(fields[0], fields[1], fields[2], FormatDate(fields[3]), fields[4]))
  {
    SplitJoin(fields + extra, '\n');
    assert (fields + extra)[..5] == fields;
  }

  /** The fields in the order of the print template. */
  function Fields(info: Info): seq<string> {
    [info.title, info.duration, info.channel, info.uploadDate, info.views]
  }

  /** The text the tool prints for the template: each field on a line of its own. */
  function PrintedFields(info: Info): string {
    Join(Fields(info), '\n') + "\n"
  }

  /** Whatever the lines of the stripped output are, the first five make up the fields. */
  lemma ParseInfoOfLines(output: string, lines: seq<string>)
    requires Split(Strip(output), '\n') == lines
    ensures |lines| >= 5 ==> ParseInfo(output) == Some(Info(lines[0], lines[1], lines[2], FormatDate(lines[3]), lines[4]))
    ensures |lines| < 5 ==> InfoText(output) == ParseFailure + output
  {
  }

  /** The printed fields lose only their final newline to `strip()` when the first field does not start and the last does not end with whitespace. */
  lemma StripPrintedFields(info: Info)
    requires info.title != [] && !IsSpace(info.title[0])
    requires info.views != [] && !IsSpace(info.views[|info.views| - 1])
    ensures Strip(PrintedFields(info)) == Join(Fields(info), '\n')
  {
    StripAroundJoin([], Fields(info), '\n', "\n");
    assert [] + Join(Fields(info), '\n') + "\n" == PrintedFields(info);
  }

  /** Separator-free fields split back out of their join. */
  lemma SplitFields(info: Info)
    requires OneLineFields(info)
    ensures Split(Join(Fields(info), '\n'), '\n') == Fields(info)
  {
    SplitJoin(Fields(info), '\n');
  }

  /**
   * Fields printed by the tool are read back unchanged, apart from the date
   * reformat, when the first field does not start and the last does not
   * end with whitespace.
   */
  lemma PrintedFieldsRoundTrip(info: Info)
    requires OneLineFields(info)
    requires info.title != [] && !IsSpace(info.title[0])
    requires info.views != [] && !IsSpace(info.views[|info.views| - 1])
    ensures ParseInfo(PrintedFields(info)) == Some(info.(uploadDate := FormatDate(info.uploadDate)))
  {
    StripPrintedFields(info);
    SplitFields(info);
    ParseInfoOfLines(PrintedFields(info), Fields(info));
  }

  /** With an empty title, the printed text is the other four fields between two newlines. */
  lemma FieldsAfterTitle(info: Info)
    requires info.title == []
    ensures PrintedFields(info) == "\n" + Join(Fields(info)[1..], '\n') + "\n"
  {
    JoinCons(info.title, Fields(info)[1..], '\n');
    assert Fields(info) == [info.title] + Fields(info)[1..];
  }

  /** The four fields after the title split back out of their join. */
  lemma SplitOtherFields(info: Info)
    requires OneLineFields(info)
    ensures Split(Join(Fields(info)[1..], '\n'), '\n') == Fields(info)[1..]
    ensures |Fields(info)[1..]| == 4
  {
    SplitJoin(Fields(info)[1..], '\n');
  }

  /**
   * An empty title loses its line to `strip()`: the remaining four fields
   * are too few, and the reply is the failure message.
   */
  lemma EmptyTitleFails(info: Info)
    requires OneLineFields(info) && info.title == []
    requires info.duration != [] && !IsSpace(info.duration[0])
    requires info.views != [] && !IsSpace(info.views[|info.views| - 1])
    ensures InfoText(PrintedFields(info)) == ParseFailure + PrintedFields(info)
  {
    var rest := Fields(info)[1..];
    FieldsAfterTitle(info);
    StripAroundJoin("\n", rest, '\n', "\n");
    SplitOtherFields(info);
    ParseInfoOfLines(PrintedFields(info), rest);
  }

  /** "20240115" becomes "2024-01-15"; a date of four or of ten characters is kept. */
  lemma FormatDateExamples()
    ensures FormatDate("20240115") == "2024-01-15"
    ensures FormatDate("2024") == "2024"
    ensures FormatDate("2024-01-15") == "2024-01-15"
  {
  }
}
