/**
 * The earlier revision of the `youtube-dl -F` parser: the same rows and the
 * same words, but the last word is the size as it stands, with no suffix
 * check, and the failure reads "failed to parse file format". That
 * revision's `ApplicationError` is `Application` here.
 */
module FileFormatsEarly {
  import opened Prelude
  import opened Seqs
  import opened RustText
  import opened Errors
  import FileFormats

  datatype FileFormat = FileFormat(code: string, extension: string, resolution: string, size: string)

  const ParseFailure: string := "failed to parse file format"

  /**
   * `parse_line`, given the words of the line: code, extension, resolution, then the size.
   * Its closure `extract` is `ok_or` with this revision's failure message.
   */
  function ParseWords(words: seq<string>): (r: Result<FileFormat, YouDlError>)
    ensures r.Ok? <==> |words| > 3
    ensures r.Err? ==> r.error == Application(ParseFailure)
    ensures r.Ok? ==> r.value == FileFormat(words[0], words[1], words[2], words[|words| - 1])
  {
    match FileFormats.Nth(words, 0).OkOr(Application(ParseFailure))
    case Err(e) => Err(e)
    case Ok(code) =>
      match FileFormats.Nth(words, 1).OkOr(Application(ParseFailure))
      case Err(e) => Err(e)
      case Ok(extension) =>
        match FileFormats.Nth(words, 2).OkOr(Application(ParseFailure))
        case Err(e) => Err(e)
        case Ok(resolution) =>
          match FileFormats.LastAfterThree(words).OkOr(Application(ParseFailure))
          case Err(e) => Err(e)
          case Ok(size) => Ok(FileFormat(code, extension, resolution, size))
  }

  function ParseLine(line: string): Result<FileFormat, YouDlError>
  {
    ParseWords(SplitWhitespace(line))
  }

  /** `from_youtube_dl_stdout` of this revision. */
  function FromYoutubeDlStdout(stdout: string): (r: Result<seq<FileFormat>, YouDlError>)
    ensures r.Ok? ==> |r.value| == |FileFormats.Rows(stdout)|
                      && forall i :: 0 <= i < |r.value| ==> ParseLine(FileFormats.Rows(stdout)[i]) == Ok(r.value[i])
    ensures r.Err? ==> r.error == Application(ParseFailure)
    ensures r.Err? <==> exists i :: 0 <= i < |FileFormats.Rows(stdout)| && |SplitWhitespace(FileFormats.Rows(stdout)[i])| <= 3
  {
    var rows := FileFormats.Rows(stdout);
    CollectOkIff(rows, ParseLine);
    Collect(rows, ParseLine)
  }

  /**
   * Both revisions accept the same rows and read the same first three words;
   * they differ only in the size, which the later one checks for a suffix.
   */
  lemma AgreesWithLaterRevision(words: seq<string>)
    ensures ParseWords(words).Ok? <==> FileFormats.ParseWords(words).Ok?
    ensures ParseWords(words).Ok? ==>
      var early, later := ParseWords(words).value, FileFormats.ParseWords(words).value;
      early.code == later.itag && early.extension == later.fileExtension
      && early.resolution == later.videoResolution
      && (FileFormats.IsValidFileSize(early.size) ==> early.size == later.fileSize)
      && (!FileFormats.IsValidFileSize(early.size) ==> later.fileSize == FileFormats.UnknownSize)
  {
  }

  /** A sample row keeps its size `1.39MiB` as the size column. */
  lemma SampleRow()
    ensures ParseWords(["136", "mp4", "1280x720", "720p", "1334k", ",", "avc1.4d401f,", "30fps,",
                        "video", "only,", "1.39MiB"])
            == Ok(FileFormat("136", "mp4", "1280x720", "1.39MiB"))
  {
  }

  /** A row that ends with a note keeps the note as its size: no suffix check. */
  lemma NoteKeptAsSize()
    ensures ParseWords(["22", "mp4", "1280x720", "720p", "1472k", "(best)"])
            == Ok(FileFormat("22", "mp4", "1280x720", "(best)"))
  {
  }

  /** `Display`: `{:6}{:8}{:12}{}`; text is left-aligned by default. */
  function Text(f: FileFormat): string
  {
    PadRight(f.code, 6) + PadRight(f.extension, 8) + PadRight(f.resolution, 12) + f.size
  }

  /** When the fields fit, the extension starts at 6, the resolution at 14 and the size at 26. */
  lemma TextColumns(f: FileFormat)
    requires |f.code| <= 6 && |f.extension| <= 8 && |f.resolution| <= 12
    ensures var t := Text(f);
      |t| == 26 + |f.size|
      && t[..|f.code|] == f.code
      && t[6..6 + |f.extension|] == f.extension
      && t[14..14 + |f.resolution|] == f.resolution
      && t[26..] == f.size
  {
    LeftAlignedColumns(f.code, 6, f.extension, 8, f.resolution, 12, f.size);
  }
}
