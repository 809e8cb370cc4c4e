# YouTube subtitle server: text-processing core

The server offers three tools to a model client: `list_subtitle_languages`,
`download_subtitles` and `get_video_info`. Each tool first checks a start-up
flag that records whether `yt-dlp` is on the `PATH`. It then runs `yt-dlp` and
turns the tool's text output into a reply. This project models that text
processing and proves what it does:

- **Languages** (`Languages.dfy`) is the listing parser. A loop walks
  `output.splitlines()`, skips everything up to the first line that contains
  `Available subtitles`, and matches each later non-blank line against
  `\s*(\w+)\s+(\w+)?\s*(.*)`. It keeps `"<group 1>: <group 3 stripped>"`. The
  loop is the method `ParseLanguages`, proved against the function
  `ListedLanguages`. The regex match is a greedy scan (`MatchLine`), proved
  equal to the one greedy decomposition the regex engine returns.
- **Srt** (`Srt.dfy`) is the SubRip clean-up of `download_subtitles`. The first
  `re.sub` deletes every cue header (`\d+\n<ts> --> <ts>\n`). The second
  replaces every `\n\s*\n` run with one newline. Both are left-to-right scans
  that resume after each match, as `re.sub` does. A SubRip document whose
  cues each hold one non-blank line of text (`Document`) is proved to clean
  to those texts, one per line.
- **VideoInfo** (`VideoInfo.dfy`) is the reformatting of `get_video_info`. It
  strips the output, splits it at `\n` and needs at least five lines. It
  rewrites an eight-character date as `YYYY-MM-DD` and prints five labelled
  lines.
- **Server** (`Server.dfy`) is the three tools as functions of the start-up
  flag, the result of the `yt-dlp` run and, for downloads, the subtitle file.
  The tools' error replies are modelled, and so is the gate that answers every
  tool with the "not installed" message.
- **Text** (`Text.dfy`) holds the Python string operations these rely on:
  `str.strip`, `str.splitlines`, `str.split`, `str.join` and substring `in`.
  Python's `\s` and `str.isspace` are modelled with the full Unicode
  whitespace list.

Two behaviours of the code are worth knowing:

- A listing line `en       vtt, srt  English` (code, formats, name) yields
  `en: , srt  English`. Group 2 takes `vtt`, and the name `English` is not
  what the entry shows (`Languages.FormatsFirstExample`).
- The clean-up is not idempotent. It returns text unchanged exactly when the
  text holds no cue header and no blank-line run (`Srt.CleanUnchanged`). A cue
  number separated from its timing line by a blank line holds no cue header.
  The second `re.sub` closes that blank line and so forms a cue header, which
  a second clean-up deletes (`Srt.CleanTwice`, `Srt.CleanTwiceExample`).

## Model

| member | source | states |
|---|---|---|
| Text.Strip | youtube_subtitles_server.py:109 | `str.strip()`: the result is empty exactly when the text is all whitespace; otherwise it starts and ends with non-whitespace and is a contiguous part of the text |
| Text.StripTrimmed | youtube_subtitles_server.py:109 | text that neither starts nor ends with whitespace is returned unchanged by `strip()` |
| Text.StripAround | youtube_subtitles_server.py:205 | `strip()` removes exactly the whitespace around a trimmed core |
| Text.StripAroundJoin | youtube_subtitles_server.py:205 | stripping whitespace around joined lines gives back the joined lines when the first line starts and the last line ends with non-whitespace |
| Text.StripSubset | youtube_subtitles_server.py:109 | `strip()` adds no character that was not in the text |
| Text.ContainsIff | youtube_subtitles_server.py:100 | `pat in s` holds exactly when `pat` occurs at some position of `s` |
| Text.NotContains | youtube_subtitles_server.py:100 | a text without the pattern's first character does not contain the pattern |
| Text.Split | youtube_subtitles_server.py:205 | `split('\n')` returns at least one part, no part holds the separator, and joining the parts gives back the text |
| Text.SplitJoin | youtube_subtitles_server.py:205 | splitting separator-free parts after joining them returns the parts (round trip) |
| Text.SplitCount | youtube_subtitles_server.py:205-206 | `split('\n')` yields one more part than there are newlines |
| Text.Join | youtube_subtitles_server.py:115 | `sep.join(parts)`: the parts with one separator between each two; its round trip with `split` is `Text.Split` and `Text.SplitJoin` |
| Text.Contains | youtube_subtitles_server.py:100 | `pat in s`, scanned position by position; `Text.ContainsIff` states what it means |
| Text.JoinCons | youtube_subtitles_server.py:115 | `"\n".join` puts the separator between the first part and the join of the rest |
| Text.SplitLines | youtube_subtitles_server.py:99 | `splitlines()` yields lines that hold no line boundary |
| Text.SplitLinesSplit | youtube_subtitles_server.py:99 | on text whose only line boundary is `\n`, the lines of the text with a final newline are exactly its `split('\n')` pieces |
| Text.SplitLinesOne | youtube_subtitles_server.py:99 | a non-empty text without line boundaries is one line |
| Text.SplitLinesCons | youtube_subtitles_server.py:99 | a line ended by `\n` is the first of the lines, and the rest follow |
| Languages.MatchLine | youtube_subtitles_server.py:106 | `re.match` of the listing pattern as one maximal span per sub-pattern, which is the match `re.match` returns because `(.*)` always matches; `Languages.MatchLineGreedy`, `Languages.MatchLineIff` and `Languages.GreedyMatchUnique` state what it returns |
| Languages.EntryText | youtube_subtitles_server.py:108-110 | the entry `group 1 + ": " + group 3 stripped`, with group 3 ending before the first newline |
| Languages.MatchLineGreedy | youtube_subtitles_server.py:106 | the scanner's match spells the line, each part lies in its sub-pattern's class, and each greedy part cannot be extended |
| Languages.MatchLineIff | youtube_subtitles_server.py:106-107 | the regex matches exactly when the line is optional whitespace, word characters, then a whitespace character |
| Languages.GreedyMatchPattern | youtube_subtitles_server.py:106 | a greedy decomposition witnesses that the pattern matches |
| Languages.PatternMatchesAt | youtube_subtitles_server.py:106-107 | wherever the pattern can match, the scanner finds a match |
| Languages.GreedyMatchUnique | youtube_subtitles_server.py:106 | the greedy decomposition is unique: it is the one the scanner returns |
| Languages.LineEntries | youtube_subtitles_server.py:100-110 | one line after the marker contributes at most one entry |
| Languages.PatternNotBlank | youtube_subtitles_server.py:104-107 | a line the pattern matches is never blank, so the `line.strip()` test never hides a match |
| Languages.LineEntriesSpec | youtube_subtitles_server.py:100-110 | a line yields an entry exactly when it has no marker and the pattern matches it; the entry is `code + ": " + strip(group 3)` of the greedy match |
| Languages.LineEntriesOfMatch | youtube_subtitles_server.py:106-110 | a line with a greedy match and no marker yields the entry of that match |
| Languages.SectionEntries | youtube_subtitles_server.py:104-110 | the entries of the lines after the marker, in order; `Languages.SectionEntriesAppend` states that order is kept |
| Languages.ListedLanguages | youtube_subtitles_server.py:99-110 | the entries of the lines after the first marker line, or none without a marker; the loop `Languages.ParseLanguages` is proved to compute it |
| Languages.FirstMarker | youtube_subtitles_server.py:100-101 | the index of the first marker line is a valid line index |
| Languages.FirstMarkerSpec | youtube_subtitles_server.py:100-101 | the line found holds the marker and no earlier line does; with no result, no line does |
| Languages.ParseLanguages | youtube_subtitles_server.py:96-110 | the loop over `splitlines()` with the `in_subtitles_section` flag returns exactly the entries `ListedLanguages` assigns to the lines |
| Languages.ParseStep | youtube_subtitles_server.py:99-110 | one loop step: the flag turns on at a marker line, and the entry of a later matching non-blank line is appended at the end |
| Languages.ListedLanguagesSnoc | youtube_subtitles_server.py:99-110 | one more line adds its entry when the marker was already seen, and nothing otherwise |
| Languages.ListedLanguagesSkip | youtube_subtitles_server.py:100-104 | a first line without the marker contributes nothing |
| Languages.SectionEntriesAppend | youtube_subtitles_server.py:99-110 | entries of consecutive runs of lines concatenate, so input order is kept |
| Languages.SectionEntriesSnoc | youtube_subtitles_server.py:110 | an appended line's entries come last |
| Languages.NothingBeforeMarker | youtube_subtitles_server.py:99-104 | lines up to and including the first marker line contribute nothing; only the lines after it count |
| Languages.NoMarkerNoLanguages | youtube_subtitles_server.py:99-104 | without a marker line no entry is produced |
| Languages.EntryTextOneLine | youtube_subtitles_server.py:106-110 | an entry never holds a newline, because `.` stops before one |
| Languages.LineEntriesOneLine | youtube_subtitles_server.py:106-110 | no entry produced by a line holds a newline |
| Languages.SectionEntriesOneLine | youtube_subtitles_server.py:99-110 | no collected entry holds a newline |
| Languages.ListedLanguagesOneLine | youtube_subtitles_server.py:99-110 | no entry of the parsed listing holds a newline |
| Languages.Listing | youtube_subtitles_server.py:112-115 | the "none found" text for no entries, otherwise the title line and the entries joined by newlines; `Languages.ListingLines` and `Languages.ListingNoneFound` state both cases |
| Languages.ListingLines | youtube_subtitles_server.py:115 | a non-empty reply splits back into the title line followed by the entries |
| Languages.ListingNoneFound | youtube_subtitles_server.py:112-115 | the reply is the "none found" text exactly when no entry was collected |
| Languages.ThreeColumnLine | youtube_subtitles_server.py:106-110 | a code, name and formats line yields `code: formats`; the name (group 2) is dropped |
| Languages.ThreeColumnMatch | youtube_subtitles_server.py:106 | the code, name and formats columns are groups 1, 2 and 3 of the greedy match |
| Languages.UpToNewlineWhole | youtube_subtitles_server.py:106 | group 3 of a line without a newline is the whole rest of the line |
| Languages.CodeNotFollowedBySpace | youtube_subtitles_server.py:106-107 | a code followed by a character that is neither whitespace nor a word character (as in `en-US`) makes the line yield nothing |
| Languages.MiddleWordSwallowed | youtube_subtitles_server.py:106-110 | when the formats follow the code directly, group 2 takes the first format and the entry keeps only the text after it |
| Languages.SwallowedMatch | youtube_subtitles_server.py:106 | the greedy match in that layout puts the first format in group 2 |
| Languages.TwoWordLine | youtube_subtitles_server.py:106-110 | a line of two words yields the first word followed by `": "` |
| Languages.TwoWordMatch | youtube_subtitles_server.py:106 | the greedy match of a two-word line leaves group 3 empty |
| Languages.EmptyGroup | youtube_subtitles_server.py:109-110 | an empty group 3 gives the entry `code + ": "` |
| Languages.FormatsFirstExample | youtube_subtitles_server.py:106-110 | `en       vtt, srt  English` yields `en: , srt  English` |
| Languages.ThreeColumnExample | youtube_subtitles_server.py:106-110 | `en       English      vtt, srt` yields `en: vtt, srt` |
| Languages.HeaderRowExample | youtube_subtitles_server.py:104-110 | a column-header row `Language Formats` after the marker yields the entry `Language: ` |
| Srt.CueHeaderLength | youtube_subtitles_server.py:165 | a match found at the start of the text is a whole cue header |
| Srt.CueHeaderUnique | youtube_subtitles_server.py:165 | any cue-header prefix of the text is the match the scanner finds |
| Srt.StripCueHeaders | youtube_subtitles_server.py:165 | the first `re.sub` never lengthens the text |
| Srt.StripCueHeadersUnchanged | youtube_subtitles_server.py:165 | the first pass leaves the text unchanged exactly when no cue header starts anywhere in it |
| Srt.NoCueHeaderCons | youtube_subtitles_server.py:165 | a text without a cue header keeps having none after its first character |
| Srt.BlankRunLength | youtube_subtitles_server.py:167 | a match found at the start of the text is whitespace that begins and ends with a newline |
| Srt.BlankRunLongest | youtube_subtitles_server.py:167 | the match is the longest prefix the pattern accepts, as the greedy `\s*` with backtracking gives |
| Srt.CollapseBlankRuns | youtube_subtitles_server.py:167 | the second `re.sub` never lengthens the text |
| Srt.CollapseLine | youtube_subtitles_server.py:167 | a leading stretch without a newline is kept as it is, and the second pass works on the rest |
| Srt.CollapseLeavesNoBlankRun | youtube_subtitles_server.py:167 | after the second pass no two newlines are separated by whitespace only |
| Srt.CollapseUnchanged | youtube_subtitles_server.py:167 | the second pass leaves the text unchanged exactly when it holds no blank-line run |
| Srt.Clean | youtube_subtitles_server.py:165-167 | the first `re.sub` and then the second; its properties follow in the next rows |
| Srt.CleanLeavesNoBlankRun | youtube_subtitles_server.py:165-167 | the cleaned subtitles hold no two newlines separated by whitespace only |
| Srt.CleanUnchanged | youtube_subtitles_server.py:165-167 | the clean-up leaves the text unchanged exactly when it holds no cue header and no blank-line run |
| Srt.Texts | youtube_subtitles_server.py:165-167 | the cue texts, one per cue, in order |
| Srt.TimingFits | youtube_subtitles_server.py:165 | two well-formed timestamps make a timing line the pattern accepts |
| Srt.CueHeaderMatches | youtube_subtitles_server.py:165 | the header of a well-formed cue is one match of the first pattern |
| Srt.StripAfterHeader | youtube_subtitles_server.py:165 | a cue header at the front is deleted and the scan resumes after it |
| Srt.NoHeaderInLine | youtube_subtitles_server.py:165 | no cue header starts at the front of a text line whose next line does not start with a digit |
| Srt.StripLine | youtube_subtitles_server.py:165 | a text line without a newline is kept by the first pass when the next line does not start with a digit |
| Srt.StripDocument | youtube_subtitles_server.py:165 | the first pass turns a well-formed SubRip document into its text lines, with blank lines between cues |
| Srt.CollapseTextBlocks | youtube_subtitles_server.py:167 | the second pass turns those text lines into the cue texts joined by newlines, with a final newline |
| Srt.CleanDocument | youtube_subtitles_server.py:165-167 | the clean-up of a SubRip document whose cues each hold one non-blank line of text, with no blank line after the last cue, is the texts of its cues, one per line, in order, with a final newline |
| Srt.StripSplitHeader | youtube_subtitles_server.py:165 | a number, a blank line and a timing line hold no match of the first pattern and pass the first pass unchanged |
| Srt.CollapseSplitHeader | youtube_subtitles_server.py:167 | the second pass closes the blank line between a number and a timing line |
| Srt.CleanHeader | youtube_subtitles_server.py:165-167 | the clean-up deletes a whole cue header |
| Srt.CleanTwice | youtube_subtitles_server.py:165-167 | for every number and pair of timestamps: a number, a blank line and a timing line hold no cue header, clean to a cue header, and clean again to nothing, so the clean-up is not idempotent |
| Srt.CleanTwiceExample | youtube_subtitles_server.py:165-167 | `1`, a blank line and `00:00:01,000 --> 00:00:02,000` clean to a cue header, which cleans to nothing |
| Srt.CleanExample | youtube_subtitles_server.py:165-167 | the two-cue document with texts `Hello` and `World` is cleaned to `Hello\nWorld\n` |
| VideoInfo.FormatDate | youtube_subtitles_server.py:210-211 | an eight-character date gets dashes at positions 4 and 7 and keeps its digits in order, giving length 10; any other length is kept |
| VideoInfo.FormatDateDashes | youtube_subtitles_server.py:210-211 | an eight-character date gains exactly two dashes and no other character |
| VideoInfo.FormatDateExamples | youtube_subtitles_server.py:210-211 | `20240115` becomes `2024-01-15`; `2024` and `2024-01-15` are kept |
| VideoInfo.ParseInfo | youtube_subtitles_server.py:205-211 | the first five lines of `output.strip().split('\n')` with the date reformatted, or nothing with fewer than five lines; `VideoInfo.ParseInfoLineCount` and `VideoInfo.PrintedFieldsRoundTrip` state what it reads |
| VideoInfo.Render | youtube_subtitles_server.py:213-217 | the five labelled lines; `VideoInfo.RenderLines` states that they split back out |
| VideoInfo.InfoText | youtube_subtitles_server.py:205-221 | the labelled lines of the parsed fields, or the failure message with the raw output |
| VideoInfo.RenderJoin | youtube_subtitles_server.py:213-217 | the reply is the five labelled lines joined by newlines, with no final newline |
| VideoInfo.RenderLines | youtube_subtitles_server.py:213-217 | the reply splits back into exactly the five labelled lines |
| VideoInfo.ParseInfoLineCount | youtube_subtitles_server.py:205-206 | the output parses exactly when the stripped output holds at least four newlines |
| VideoInfo.InfoTextFailure | youtube_subtitles_server.py:206-221 | the reply is the failure message with the raw output exactly when there are fewer than five lines |
| VideoInfo.InfoTextStart | youtube_subtitles_server.py:213-221 | a reply starts with `T` of `Title:` when the output parses, and with `C` of the failure message otherwise |
| VideoInfo.BlankOutputFails | youtube_subtitles_server.py:205-221 | empty or whitespace-only output is one line, so the reply is the failure message |
| VideoInfo.FirstFiveLines | youtube_subtitles_server.py:205-217 | only the first five lines are read, and the fourth is the one whose date is reformatted |
| VideoInfo.PrintedFieldsRoundTrip | youtube_subtitles_server.py:200-211 | fields printed one per line by the tool are read back unchanged, apart from the date reformat, when no field holds a newline, the title starts with non-whitespace and the view count ends with non-whitespace |
| VideoInfo.EmptyTitleFails | youtube_subtitles_server.py:205-221 | an empty title loses its line to `strip()`, so four lines remain and the reply is the failure message |
| Server.RunError | youtube_subtitles_server.py:63-67 | the message of a failed run: `yt-dlp error: ` and the standard error, or the not-found text |
| Server.ListReply | youtube_subtitles_server.py:82-119 | the listing tool's reply: the gate, the listing of the parsed entries, or the listing error prefix and the run's message |
| Server.DownloadReply | youtube_subtitles_server.py:135-176 | the download tool's reply: the gate, the run's error, the cleaned file, the missing-file text, or the read error |
| Server.VideoInfoReply | youtube_subtitles_server.py:191-225 | the video-info tool's reply: the gate, the formatted information, or the error prefix and the run's message |
| Server.ListSubtitleLanguages | youtube_subtitles_server.py:82-119 | the tool's reply: the gate, the parser's loop over the output, the listing, or the error reply |
| Server.ListGate | youtube_subtitles_server.py:82-119 | the listing reply is the "not installed" message exactly when `yt-dlp` was not found at start-up |
| Server.VideoInfoGate | youtube_subtitles_server.py:191-225 | the video-info reply is the "not installed" message exactly when `yt-dlp` was not found at start-up |
| Server.DownloadGate | youtube_subtitles_server.py:135-176 | the download reply is the "not installed" message exactly when `yt-dlp` was not found, or the cleaned file reads exactly like that message |
| Server.ListReplyLines | youtube_subtitles_server.py:96-115 | after a successful run the reply is "none found" when nothing was collected; otherwise it splits into the title line and the entries |
| Server.DownloadReplies | youtube_subtitles_server.py:159-172 | a file that was read is answered with its clean-up, which holds no blank-line run; a missing file names the language |

## Left out

- Running `yt-dlp` (lines 52-62) is process I/O. A run is the input value `ToolRun`: its standard output, a non-zero exit with its standard error, or no executable. The exception texts of lines 63-67 are modelled (`RunError`).
- The start-up probe with `shutil.which` and the background self-update (lines 12-43) are environment and process handling. Their only effect, the `yt_dlp_available` flag, is the `available` parameter.
- The temporary directory, the existence check and the UTF-8 read of the `.srt` file (lines 141-161) are filesystem I/O. What they find is the input value `SubtitleFile`: absent, read with its text, or a failed read with its message.
- MCP server construction, tool decorators, `ctx.info` and `ctx.error`, and logging to standard error are protocol and logging plumbing with no effect on replies.
- The prompt template `youtube_subtitles_workflow` (lines 227-267) is a constant message list that only interpolates the URL.
- The argument vectors passed to `yt-dlp` (lines 89-93, 147-154, 198-202) have meaning only through the external tool. The download's default language `en` (line 122) is a default argument; the model always takes the language as a parameter.
- `\w` and `\d` are modelled as ASCII word characters and ASCII digits. Python's `re` on `str` also accepts other Unicode letters and digits.
- Srt.CleanDocument: covers SubRip documents whose cues each hold one non-blank line of text and that end right after the last cue's text. A cue of two text lines keeps its lines apart in the output, so the output is no longer one line per cue, and a document that ends in a blank line is not covered.
- Exceptions other than a failed run or a failed file read, such as running out of memory, are not modelled.
