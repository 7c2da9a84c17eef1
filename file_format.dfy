/**
 * `FileFormat::from_youtube_dl_stdout`: the rows of `youtube-dl -F` become
 * file formats. Only lines that start with a numeric character are rows;
 * each row is split on whitespace into the itag, the extension, the
 * resolution and, as its last word, the size, which is kept only when it
 * ends with a size suffix. Any row with three words or fewer fails the whole
 * parse.
 *
 * `char::is_numeric` is modelled over the ASCII digits, and whitespace is
 * Unicode's White_Space set.
 */
module FileFormats {
  import opened Prelude
  import opened Seqs
  import opened RustText
  import opened Errors
  import FileSize

  datatype FileFormat = FileFormat(itag: string, fileExtension: string, videoResolution: string, fileSize: string)

  const ParseFailure: string := "failed to parse file_format"
  const UnknownSize: string := "unknown"

  /** `line.starts_with(|c: char| c.is_numeric())`. */
  function StartsNumeric(line: string): bool
  {
    line != [] && IsAsciiDigit(line[0])
  }

  /** `is_valid_file_size`: the text ends with one of the size suffixes. */
  predicate IsValidFileSize(size: string)
  {
    exists i :: 0 <= i < |FileSize.Suffixes| && EndsWith(size, FileSize.Suffixes[i])
  }

  /** `extract_option_str`: a present word, or the parse failure. */
  function ExtractOptionStr(word: Option<string>): (r: Result<string, YouDlError>)
    ensures word.Some? ==> r == Ok(word.value)
    ensures word.None? ==> r == Err(Application(ParseFailure))
  {
    word.OkOr(Application(ParseFailure))
  }

  /** The `k`-th word the token cursor hands out, if there is one. */
  function Nth(words: seq<string>, k: nat): Option<string>
  {
    if k < |words| then Some(words[k]) else None
  }

  /** `words_iter.last()` after three calls to `next()`: the last word, if there are more than three. */
  function LastAfterThree(words: seq<string>): Option<string>
  {
    if |words| > 3 then Some(words[|words| - 1]) else None
  }

  /** `parse_line`, given the words of the line. */
  function ParseWords(words: seq<string>): (r: Result<FileFormat, YouDlError>)
    ensures r.Ok? <==> |words| > 3
    ensures r.Err? ==> r.error == Application(ParseFailure)
    ensures r.Ok? ==> r.value.itag == words[0] && r.value.fileExtension == words[1]
                      && r.value.videoResolution == words[2]
    ensures r.Ok? ==> var size := words[|words| - 1];
                      r.value.fileSize == if IsValidFileSize(size) then size else UnknownSize
  {
    match ExtractOptionStr(LastAfterThree(words))
    case Err(e) => Err(e)
    case Ok(last) =>
      var fileSize := if IsValidFileSize(last) then last else UnknownSize;
      match ExtractOptionStr(Nth(words, 0))
      case Err(e) => Err(e)
      case Ok(itag) =>
        match ExtractOptionStr(Nth(words, 1))
        case Err(e) => Err(e)
        case Ok(fileExtension) =>
          match ExtractOptionStr(Nth(words, 2))
          case Err(e) => Err(e)
          case Ok(videoResolution) => Ok(FileFormat(itag, fileExtension, videoResolution, fileSize))
  }

  /** `parse_line`. */
  function ParseLine(line: string): Result<FileFormat, YouDlError>
  {
    ParseWords(SplitWhitespace(line))
  }

  /** The rows of the output: its lines that start with a numeric character, in order. */
  function Rows(stdout: string): seq<string>
  {
    Filter(Lines(stdout), StartsNumeric)
  }

  /** `from_youtube_dl_stdout`. */
  function FromYoutubeDlStdout(stdout: string): (r: Result<seq<FileFormat>, YouDlError>)
    ensures r.Ok? ==> |r.value| == |Rows(stdout)|
                      && forall i :: 0 <= i < |r.value| ==> ParseLine(Rows(stdout)[i]) == Ok(r.value[i])
    ensures r.Err? ==> r.error == Application(ParseFailure)
    ensures r.Err? <==> exists i :: 0 <= i < |Rows(stdout)| && |SplitWhitespace(Rows(stdout)[i])| <= 3
  {
    var r := Collect(Rows(stdout), ParseLine);
    CollectOkIff(Rows(stdout), ParseLine);
    r
  }

  /** For output written line by line, the rows are the written lines that start with a digit. */
  lemma RowsOfTerminated(ls: seq<string>)
    requires forall l :: l in ls ==> '\n' !in l && StripCr(l) == l
    ensures Rows(Terminated(ls)) == Filter(ls, StartsNumeric)
  {
    LinesOfTerminated(ls);
  }

  /** A header or an empty line is not a row. */
  lemma HeaderIsNoRow(ls: seq<string>)
    requires forall l :: l in ls ==> '\n' !in l && StripCr(l) == l
    ensures "format code  extension  resolution note" !in Rows(Terminated(ls))
    ensures "" !in Rows(Terminated(ls))
  {
    RowsOfTerminated(ls);
    assert !StartsNumeric("format code  extension  resolution note");
  }

  /** Words written with single spaces parse as those words. */
  lemma ParseSpacedLine(words: seq<string>)
    requires forall w :: w in words ==> IsWord(w)
    ensures ParseLine(Spaced(words)) == ParseWords(words)
  {
    SplitWhitespaceOfSpaced(words);
  }

  /** A size with a binary-unit suffix is kept. */
  lemma MebibyteSizeIsValid()
    ensures IsValidFileSize("1.54MiB")
  {
    assert EndsWith("1.54MiB", FileSize.Suffixes[2]);
  }

  /** A note such as `(best)` or `(44100Hz)` in the last column is no size. */
  lemma NotesAreNoSize()
    ensures !IsValidFileSize("(best)") && !IsValidFileSize("(44100Hz)")
  {
    forall i | 0 <= i < |FileSize.Suffixes|
      ensures !EndsWith("(best)", FileSize.Suffixes[i]) && !EndsWith("(44100Hz)", FileSize.Suffixes[i])
    {
      assert "(best)"[5] == ')' && "(44100Hz)"[8] == ')';
    }
  }

  /**
   * An audio-only row: the resolution is the word `audio`, and a row that
   * ends with a note has an unknown size.
   */
  lemma AudioOnlyRow()
    ensures ParseWords(["140", "m4a", "audio", "only", "DASH", "audio", "130k", ",", "m4a_dash",
                       "container,", "mp4a.40.2@128k", "(44100Hz)"])
            == Ok(FileFormat("140", "m4a", "audio", UnknownSize))
  {
    NotesAreNoSize();
  }

  /** A video row that ends with its size keeps the size. */
  lemma VideoRowWithSize()
    ensures ParseWords(["398", "mp4", "1280x720", "720p", "1015k", ",", "av01.0.05M.08,", "30fps,",
                       "video", "only,", "1.54MiB"])
            == Ok(FileFormat("398", "mp4", "1280x720", "1.54MiB"))
  {
    var words := ["398", "mp4", "1280x720", "720p", "1015k", ",", "av01.0.05M.08,", "30fps,",
                  "video", "only,", "1.54MiB"];
    assert |words| == 11 && words[10] == "1.54MiB";
    MebibyteSizeIsValid();
    var r := ParseWords(words);
    assert r.Ok? && r.value.itag == "398" && r.value.fileExtension == "mp4" && r.value.videoResolution == "1280x720";
  }

  /** `Display`: `{:<6}{:<8}{:<11}{}` over itag, extension, resolution and size. */
  function Text(f: FileFormat): string
  {
    PadRight(f.itag, 6) + PadRight(f.fileExtension, 8) + PadRight(f.videoResolution, 11) + f.fileSize
  }

  /** When the fields fit, the extension starts at 6, the resolution at 14 and the size at 25. */
  lemma TextColumns(f: FileFormat)
    requires |f.itag| <= 6 && |f.fileExtension| <= 8 && |f.videoResolution| <= 11
    ensures var t := Text(f);
      |t| == 25 + |f.fileSize|
      && t[..|f.itag|] == f.itag
      && t[6..6 + |f.fileExtension|] == f.fileExtension
      && t[14..14 + |f.videoResolution|] == f.videoResolution
      && t[25..] == f.fileSize
  {
    LeftAlignedColumns(f.itag, 6, f.fileExtension, 8, f.videoResolution, 11, f.fileSize);
  }
}
