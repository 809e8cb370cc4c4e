/**
 * The three tools the server offers, as functions of what the outside world
 * hands them: whether `yt-dlp` was found at start-up, how the `yt-dlp` run
 * ended, and (for downloads) what the subtitle file held. Each tool first
 * checks the start-up flag, then runs `yt-dlp`, then turns its output into
 * the reply; a failed run becomes an error reply naming the tool.
 */
module Server {
  import opened Text
  import Languages
  import Srt
  import VideoInfo

  /** The reply of every tool when `yt-dlp` was not found at start-up. */
  const NotInstalled := "Error: " + "yt-dlp is not installed. Please install it with: pip install yt-dlp"

  const ListError := "Error listing subtitle languages: "
  const DownloadError := "Error downloading subtitles: "
  const InfoError := "Error getting video info: "
  const NoSubtitlesFor := "No subtitles found for language: "

  /** How a `yt-dlp` run ended: its standard output, a non-zero exit with its standard error, or no executable. */
  datatype ToolRun = Ran(stdout: string) | Exited(stderr: string) | NotFound

  /** What `download_subtitles` finds where the `.srt` file should be. */
  datatype SubtitleFile = Absent | Read(text: string) | Unreadable(message: string)

  /** The message of the error `run_yt_dlp_command` raises for a failed run. */
  function RunError(run: ToolRun): string
    requires !run.Ran?
  {
    match run
    case Exited(stderr) => "yt-dlp error: " + stderr
    case NotFound => "yt-dlp not found. Please make sure it's installed and in your PATH."
  }

  /** The reply of `list_subtitle_languages`. */
  function ListReply(available: bool, run: ToolRun): string {
    if !available then NotInstalled
    else
      match run
      case Ran(output) => Languages.Listing(Languages.ListedLanguages(SplitLines(output)))
      case _ => ListError + RunError(run)
  }

  /** `list_subtitle_languages`: the gate, then the parser's loop over the tool's listing. */
  method ListSubtitleLanguages(available: bool, run: ToolRun) returns (reply: string)
    ensures reply == ListReply(available, run)
  {
    if !available {
      return NotInstalled;
    }
    match run {
      case Ran(output) =>
        var languages := Languages.ParseLanguages(output);
        if languages == [] {
          reply := Languages.NoneFound;
        } else {
          reply := Languages.ListingTitle + "\n" + Join(languages, '\n');
        }
      case _ =>
        reply := ListError + RunError(run);
    }
  }

  /** The reply of `download_subtitles` for language `lang`. */
  function DownloadReply(available: bool, lang: string, run: ToolRun, file: SubtitleFile): string {
    if !available then NotInstalled
    else if !run.Ran? then DownloadError + RunError(run)
    else
      match file
      case Read(text) => Srt.Clean(text)
      case Absent => NoSubtitlesFor + lang
      case Unreadable(message) => DownloadError + message
  }

  /** The reply of `get_video_info`. */
  function VideoInfoReply(available: bool, run: ToolRun): string {
    if !available then NotInstalled
    else
      match run
      case Ran(output) => VideoInfo.InfoText(output)
      case _ => InfoError + RunError(run)
  }

  /** The error prefixes of the three tools differ from the start-up message at their sixth character. */
  lemma ErrorPrefixes()
    ensures NotInstalled[0] == 'E' && NotInstalled[5] == ':'
    ensures ListError[5] == ' ' && DownloadError[5] == ' ' && InfoError[5] == ' '
  {
  }

  /**
   * The listing tool answers with the start-up message exactly when `yt-dlp`
   * was not found at start-up, whatever the run would have produced.
   */
  lemma ListGate(available: bool, run: ToolRun)
    ensures ListReply(available, run) == NotInstalled <==> !available
  {
    var r := ListReply(available, run);
    if available {
      ErrorPrefixes();
      if run.Ran? {
        var entries := Languages.ListedLanguages(SplitLines(run.stdout));
        if entries == [] {
          assert r[0] == 'N';
        } else {
          assert r[0] == 'A';
        }
      } else {
        assert r[5] == ' ';
      }
    }
  }

  /**
   * The video-info tool answers with the start-up message exactly when
   * `yt-dlp` was not found at start-up.
   */
  lemma VideoInfoGate(available: bool, run: ToolRun)
    ensures VideoInfoReply(available, run) == NotInstalled <==> !available
  {
    var r := VideoInfoReply(available, run);
    if available {
      ErrorPrefixes();
      if run.Ran? {
        assert r == VideoInfo.InfoText(run.stdout);
        VideoInfo.InfoTextStart(run.stdout);
        assert r[0] != NotInstalled[0];
      } else {
        assert r[5] == ' ';
      }
    }
  }

  /**
   * The download tool answers with the start-up message when `yt-dlp` was not
   * found, and otherwise only when the cleaned subtitle file reads exactly
   * like it: a reply of the gate's text does not prove the gate was closed.
   */
  lemma DownloadGate(available: bool, lang: string, run: ToolRun, file: SubtitleFile)
    ensures DownloadReply(available, lang, run, file) == NotInstalled
        <==> !available || (run.Ran? && file.Read? && Srt.Clean(file.text) == NotInstalled)
  {
    var r := DownloadReply(available, lang, run, file);
    if available {
      ErrorPrefixes();
      if !run.Ran? || file.Unreadable? {
        assert r[5] == ' ';
      } else if file.Absent? {
        assert r[0] == 'N';
      }
    }
  }

  /**
   * With `yt-dlp` available and a run that succeeded, the listing reply is the
   * "none found" text when the parser collected nothing, and otherwise splits
   * into the title line followed by the collected entries, one per line.
   */
  lemma ListReplyLines(output: string)
    ensures var entries := Languages.ListedLanguages(SplitLines(output));
      && (entries == [] ==> ListReply(true, Ran(output)) == Languages.NoneFound)
      && (entries != [] ==> Split(ListReply(true, Ran(output)), '\n') == [Languages.ListingTitle] + entries)
  {
    var entries := Languages.ListedLanguages(SplitLines(output));
    if entries != [] {
      Languages.ListedLanguagesOneLine(SplitLines(output));
      Languages.ListingLines(entries);
    }
  }

  /**
   * A downloaded file that was read is answered with its clean-up, which
   * holds no blank line run; a missing file names the language asked for.
   */
  lemma DownloadReplies(lang: string, output: string, file: SubtitleFile)
    ensures file.Read? ==> DownloadReply(true, lang, Ran(output), file) == Srt.Clean(file.text)
    ensures file.Read? ==> Srt.NoBlankRun(DownloadReply(true, lang, Ran(output), file))
    ensures file.Absent? ==> DownloadReply(true, lang, Ran(output), file) == NoSubtitlesFor + lang
  {
    if file.Read? {
      Srt.CleanLeavesNoBlankRun(file.text);
    }
  }

  /** The download's error reply carries the message of the failed run or of the failed read. */
  lemma DownloadErrors(lang: string, run: ToolRun, file: SubtitleFile)
    ensures !run.Ran? ==> DownloadReply(true, lang, run, file) == DownloadError + RunError(run)
    ensures run.Ran? && file.Unreadable? ==> DownloadReply(true, lang, run, file) == DownloadError + file.message
  {
  }
}
