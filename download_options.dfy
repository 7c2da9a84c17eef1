/**
 * `DownloadOptions::try_from(PlayerResponse)`: one download option per
 * streaming format, in order, each carrying the video id, the title with
 * `+` written as a space, the container extension of its itag, its url and
 * an estimated size; or the first error met.
 *
 * `utils::format_file_size(i32)`, which renders the estimate, is a
 * parameter `sizeText`.
 */
module DownloadOptions {
  import opened Prelude
  import opened Seqs
  import opened RustInt
  import opened RustText
  import opened Errors
  import opened FileExtension

  datatype Format = Format(
    itag: I32,
    url: Option<string>,
    qualityLabel: string,
    width: I32,
    height: I32,
    mimeType: string,
    bitrate: I32,
    approxDurationMs: string)

  datatype StreamingData = StreamingData(formats: seq<Format>)

  datatype VideoDetails = VideoDetails(videoId: string, title: string)

  datatype PlayerResponse = PlayerResponse(streamingData: Option<StreamingData>, videoDetails: VideoDetails)

  datatype DownloadOption = DownloadOption(
    videoId: string,
    title: string,
    fileExtension: string,
    itag: I32,
    url: string,
    fileSize: string,
    mimeType: string,
    width: I32,
    height: I32)

  const MissingStreamingData: string := "missing value for streaming_data"
  const NoOptions: string := "no options available to download"
  const MissingUrl: string := "missing value for url"
  const BadDuration: string := "approx_duration_ms cannot be parsed into integer"

  /** The title as shown: every `+` becomes a space. */
  function ShownTitle(title: string): (r: string)
    ensures |r| == |title| && '+' !in r
    ensures forall i :: 0 <= i < |title| && title[i] != '+' ==> r[i] == title[i]
  {
    ReplaceChar(title, '+', ' ')
  }

  /** The extension of the itag, or the empty text for an itag the table lacks. */
  function ExtensionOrEmpty(itag: int): string
  {
    match GetFileExtension(itag)
    case Some(ext) => ext
    case None => ""
  }

  /** `bitrate * (approx_duration_ms / 1000) / 8`, both divisions truncating. */
  function EstimatedSize(bitrate: int, durationMs: int): int
  {
    TruncDiv(bitrate * TruncDiv(durationMs, 1000), 8)
  }

  /** A format that yields an option: it has a url and a parsable duration. */
  predicate Converts(f: Format)
  {
    f.url.Some? && ParseI32(f.approxDurationMs).Some?
  }

  /** The `i32` product in the size estimate of `f` does not overflow. */
  predicate EstimateFits(f: Format)
  {
    Converts(f) ==> InI32(f.bitrate * TruncDiv(ParseI32(f.approxDurationMs).value, 1000))
  }

  /** No overflow in any format the loop reaches: those up to the first that fails. */
  predicate EstimatesFit(formats: seq<Format>)
  {
    formats == [] || (EstimateFits(formats[0]) && (Converts(formats[0]) ==> EstimatesFit(formats[1..])))
  }

  /** The body of the loop, for one format: the url is checked before the duration. */
  function OptionOf(videoId: string, title: string, sizeText: int -> string, f: Format): (r: Result<DownloadOption, YouDlError>)
    ensures r.Ok? <==> Converts(f)
    ensures f.url.None? ==> r == Err(Undownloadable(title, MissingUrl))
    ensures f.url.Some? && !Converts(f) ==> r == Err(InvalidResponse(BadDuration))
    ensures r.Ok? ==> r.value == DownloadOption(videoId, title, ExtensionOrEmpty(f.itag), f.itag, f.url.value,
                                                sizeText(EstimatedSize(f.bitrate, ParseI32(f.approxDurationMs).value)),
                                                f.mimeType, f.width, f.height)
  {
    match f.url
    case None => Err(Undownloadable(title, MissingUrl))
    case Some(url) =>
      match ParseI32(f.approxDurationMs)
      case None => Err(InvalidResponse(BadDuration))
      case Some(ms) =>
        Ok(DownloadOption(videoId, title, ExtensionOrEmpty(f.itag), f.itag, url,
                          sizeText(EstimatedSize(f.bitrate, ms)), f.mimeType, f.width, f.height))
  }

  function Step(videoId: string, title: string, sizeText: int -> string): Format -> Result<DownloadOption, YouDlError>
  {
    f => OptionOf(videoId, title, sizeText, f)
  }

  /** What `try_from` returns. */
  function OptionsFrom(response: PlayerResponse, sizeText: int -> string): (r: Result<seq<DownloadOption>, YouDlError>)
  {
    var title := ShownTitle(response.videoDetails.title);
    match response.streamingData
    case None => Err(Undownloadable(title, MissingStreamingData))
    case Some(data) =>
      if |data.formats| == 0 then Err(Undownloadable(title, NoOptions))
      else Collect(data.formats, Step(response.videoDetails.videoId, title, sizeText))
  }

  /** `DownloadOptions::try_from`: push one option per format, stopping at the first error. */
  method TryFrom(response: PlayerResponse, sizeText: int -> string) returns (r: Result<seq<DownloadOption>, YouDlError>)
    requires response.streamingData.Some? ==> EstimatesFit(response.streamingData.value.formats)
    ensures r == OptionsFrom(response, sizeText)
  {
    var videoId := response.videoDetails.videoId;
    var title := ShownTitle(response.videoDetails.title);
    if response.streamingData.None? {
      return Err(Undownloadable(title, MissingStreamingData));
    }
    var formats := response.streamingData.value.formats;
    if |formats| == 0 {
      return Err(Undownloadable(title, NoOptions));
    }
    ghost var step := Step(videoId, title, sizeText);
    var options: seq<DownloadOption> := [];
    for i := 0 to |formats|
      invariant Collect(formats[..i], step) == Ok(options)
      invariant EstimatesFit(formats[i..])
    {
      var f := formats[i];
      var fileExtension := ExtensionOrEmpty(f.itag);
      if f.url.None? {
        FailsAt(formats, step, i);
        return Err(Undownloadable(title, MissingUrl));
      }
      var url := f.url.value;
      var durationMs := ParseI32(f.approxDurationMs);
      if durationMs.None? {
        FailsAt(formats, step, i);
        return Err(InvalidResponse(BadDuration));
      }
      assert InI32(f.bitrate * TruncDiv(durationMs.value, 1000));
      var fileSize := sizeText(EstimatedSize(f.bitrate, durationMs.value));
      var option := DownloadOption(videoId, title, fileExtension, f.itag, url, fileSize, f.mimeType, f.width, f.height);
      CollectPush(formats, step, i, options, option);
      options := options + [option];
      assert formats[i + 1..] == formats[i..][1..];
    }
    assert formats[..|formats|] == formats;
    return Ok(options);
  }

  /** A failure at `i` after a successful prefix is the failure `Collect` reports. */
  lemma FailsAt(formats: seq<Format>, step: Format -> Result<DownloadOption, YouDlError>, i: nat)
    requires i < |formats| && Collect(formats[..i], step).Ok? && step(formats[i]).Err?
    ensures Collect(formats, step) == Err(step(formats[i]).error)
  {
    forall j | 0 <= j < i ensures step(formats[j]).Ok? {
      assert formats[..i][j] == formats[j];
    }
    assert FirstFailureAt(formats, step, i);
    CollectFirstFailure(formats, step, i);
  }

  /** Without streaming data the video is undownloadable, with the shown title. */
  lemma NoStreamingData(response: PlayerResponse, sizeText: int -> string)
    requires response.streamingData.None?
    ensures OptionsFrom(response, sizeText) == Err(Undownloadable(ShownTitle(response.videoDetails.title), MissingStreamingData))
  {
  }

  /** Without formats the video is undownloadable: there is nothing to choose from. */
  lemma NoFormats(response: PlayerResponse, sizeText: int -> string)
    requires response.streamingData.Some? && response.streamingData.value.formats == []
    ensures OptionsFrom(response, sizeText) == Err(Undownloadable(ShownTitle(response.videoDetails.title), NoOptions))
  {
  }

  /**
   * Success means streaming data with at least one format, all of which
   * convert; the options are then one per format, in order, with the
   * fields copied and the shared video id and shown title.
   */
  lemma OptionsFromOk(response: PlayerResponse, sizeText: int -> string)
    ensures OptionsFrom(response, sizeText).Ok? <==>
      response.streamingData.Some? && |response.streamingData.value.formats| > 0
      && forall i :: 0 <= i < |response.streamingData.value.formats| ==> Converts(response.streamingData.value.formats[i])
    ensures OptionsFrom(response, sizeText).Ok? ==>
      var formats := response.streamingData.value.formats;
      var options := OptionsFrom(response, sizeText).value;
      |options| == |formats| > 0
      && forall i :: 0 <= i < |options| ==>
           options[i].videoId == response.videoDetails.videoId
           && options[i].title == ShownTitle(response.videoDetails.title)
           && options[i].itag == formats[i].itag
           && options[i].url == formats[i].url.value
           && options[i].mimeType == formats[i].mimeType
           && options[i].width == formats[i].width
           && options[i].height == formats[i].height
           && options[i].fileExtension == ExtensionOrEmpty(formats[i].itag)
  {
    if response.streamingData.Some? && |response.streamingData.value.formats| > 0 {
      var formats := response.streamingData.value.formats;
      var step := Step(response.videoDetails.videoId, ShownTitle(response.videoDetails.title), sizeText);
      CollectOkIff(formats, step);
      assert forall i :: 0 <= i < |formats| ==> (step(formats[i]).Ok? <==> Converts(formats[i]));
    }
  }

  /**
   * A failure is the error of the first format that does not convert: a
   * missing url (checked first) or an unparsable duration.
   */
  lemma OptionsFromFailure(response: PlayerResponse, sizeText: int -> string)
    requires response.streamingData.Some? && |response.streamingData.value.formats| > 0
    requires OptionsFrom(response, sizeText).Err?
    ensures var formats := response.streamingData.value.formats;
      exists i :: 0 <= i < |formats| && !Converts(formats[i])
        && (forall j :: 0 <= j < i ==> Converts(formats[j]))
        && OptionsFrom(response, sizeText).error ==
             if formats[i].url.None? then Undownloadable(ShownTitle(response.videoDetails.title), MissingUrl)
             else InvalidResponse(BadDuration)
  {
    var formats := response.streamingData.value.formats;
    var step := Step(response.videoDetails.videoId, ShownTitle(response.videoDetails.title), sizeText);
    var i :| FirstFailureAt(formats, step, i) && step(formats[i]) == Err(OptionsFrom(response, sizeText).error);
    assert forall j :: 0 <= j < i ==> step(formats[j]).Ok?;
    assert forall j :: 0 <= j < i ==> Converts(formats[j]);
    assert !Converts(formats[i]);
  }

  /** An itag outside the table is not an error: its option has an empty extension. */
  lemma UnknownItagHasNoExtension(itag: int)
    requires GetFileExtension(itag).None?
    ensures ExtensionOrEmpty(itag) == ""
  {
  }

  /** `get_title`: the title of the first option; there always is one after a successful `try_from`. */
  function GetTitle(options: seq<DownloadOption>): (r: string)
    requires |options| > 0
    ensures r == options[0].title
  {
    options[0].title
  }

  /** The title of a successful conversion is the player response's title with `+` shown as a space. */
  lemma TitleOfOptions(response: PlayerResponse, sizeText: int -> string)
    requires OptionsFrom(response, sizeText).Ok?
    ensures |OptionsFrom(response, sizeText).value| > 0
    ensures GetTitle(OptionsFrom(response, sizeText).value) == ShownTitle(response.videoDetails.title)
    ensures '+' !in GetTitle(OptionsFrom(response, sizeText).value)
  {
    OptionsFromOk(response, sizeText);
  }

  /** `Display`: `{:<6}{:<7}{:>4}x{:<7}{:<15}{}` over itag, extension, width, height, size and mime type. */
  function Text(o: DownloadOption): string
  {
    PadRight(IntToString(o.itag), 6) + PadRight(o.fileExtension, 7) + PadLeft(IntToString(o.width), 4)
      + "x" + PadRight(IntToString(o.height), 7) + PadRight(o.fileSize, 15) + o.mimeType
  }

  /** The pieces of a row, at the offsets their widths give. */
  lemma RowPieces(a: string, b: string, c: string, d: string, e: string, m: string)
    ensures var t := a + b + c + "x" + d + e + m;
      var n := |a| + |b| + |c|;
      |t| == n + 1 + |d| + |e| + |m|
      && t[..|a|] == a && t[|a|..|a| + |b|] == b && t[|a| + |b|..n] == c && t[n] == 'x'
      && t[n + 1..n + 1 + |d|] == d && t[n + 1 + |d|..n + 1 + |d| + |e|] == e && t[n + 1 + |d| + |e|..] == m
  {
    RowFront(a, b, c, d, e, m);
    RowBack(a, b, c, d, e, m);
  }

  /** The row splits at the `x` into the padded width columns and the rest. */
  lemma RowSplit(a: string, b: string, c: string, d: string, e: string, m: string)
    ensures var t := a + b + c + "x" + d + e + m;
      t[..|a| + |b| + |c|] == a + b + c && t[|a| + |b| + |c|] == 'x' && t[|a| + |b| + |c| + 1..] == d + e + m
  {
    var front, back := a + b + c, d + e + m;
    assert a + b + c + "x" + d + e + m == front + ("x" + back);
  }

  lemma RowFront(a: string, b: string, c: string, d: string, e: string, m: string)
    ensures var t := a + b + c + "x" + d + e + m;
      var n := |a| + |b| + |c|;
      t[..|a|] == a && t[|a|..|a| + |b|] == b && t[|a| + |b|..n] == c && t[n] == 'x'
  {
    var t := a + b + c + "x" + d + e + m;
    var n := |a| + |b| + |c|;
    var front := a + b + c;
    RowSplit(a, b, c, d, e, m);
    ThreePieces(a, b, c);
    assert t[..|a|] == front[..|a|];
    assert t[|a|..|a| + |b|] == front[|a|..|a| + |b|];
    assert t[|a| + |b|..n] == front[|a| + |b|..];
  }

  lemma RowBack(a: string, b: string, c: string, d: string, e: string, m: string)
    ensures var t := a + b + c + "x" + d + e + m;
      var n := |a| + |b| + |c|;
      t[n + 1..n + 1 + |d|] == d && t[n + 1 + |d|..n + 1 + |d| + |e|] == e && t[n + 1 + |d| + |e|..] == m
  {
    var t := a + b + c + "x" + d + e + m;
    var n := |a| + |b| + |c|;
    var back := d + e + m;
    RowSplit(a, b, c, d, e, m);
    ThreePieces(d, e, m);
    assert t[n + 1..n + 1 + |d|] == back[..|d|];
    assert t[n + 1 + |d|..n + 1 + |d| + |e|] == back[|d|..|d| + |e|];
    assert t[n + 1 + |d| + |e|..] == back[|d| + |e|..];
  }

  /**
   * When every field fits its width the columns are fixed: the itag from 0,
   * the extension from 6, the width right-aligned before the `x` at 17, the
   * height from 18, the size from 25 and the mime type from 40.
   */
  lemma TextColumns(o: DownloadOption)
    requires |IntToString(o.itag)| <= 6 && |o.fileExtension| <= 7 && |IntToString(o.width)| <= 4
    requires |IntToString(o.height)| <= 7 && |o.fileSize| <= 15
    ensures var t := Text(o);
      |t| == 40 + |o.mimeType|
      && t[..|IntToString(o.itag)|] == IntToString(o.itag)
      && t[6..6 + |o.fileExtension|] == o.fileExtension
      && t[17 - |IntToString(o.width)|..17] == IntToString(o.width)
      && t[17] == 'x'
      && t[18..18 + |IntToString(o.height)|] == IntToString(o.height)
      && t[25..25 + |o.fileSize|] == o.fileSize
      && t[40..] == o.mimeType
  {
    var itag, width, height := IntToString(o.itag), IntToString(o.width), IntToString(o.height);
    assert Text(o) == PadRight(itag, 6) + PadRight(o.fileExtension, 7) + PadLeft(width, 4) + "x"
                      + PadRight(height, 7) + PadRight(o.fileSize, 15) + o.mimeType;
    RowColumns(itag, o.fileExtension, width, height, o.fileSize, o.mimeType);
  }

  /**
   * The columns of a row whose padded fields fill their widths: each field
   * that leads (or, right-aligned, ends) its padded piece stands at a fixed
   * offset of the row.
   */
  lemma FittedRowPieces(a: string, b: string, c: string, d: string, e: string, m: string,
                        itag: string, ext: string, width: string, height: string, size: string)
    requires |a| == 6 && |b| == 7 && |c| == 4 && |d| == 7 && |e| == 15
    requires |itag| <= 6 && |ext| <= 7 && |width| <= 4 && |height| <= 7 && |size| <= 15
    requires a[..|itag|] == itag && b[..|ext|] == ext && c[|c| - |width|..] == width
    requires d[..|height|] == height && e[..|size|] == size
    ensures var t := a + b + c + "x" + d + e + m;
      |t| == 40 + |m|
      && t[..|itag|] == itag && t[6..6 + |ext|] == ext && t[17 - |width|..17] == width && t[17] == 'x'
      && t[18..18 + |height|] == height && t[25..25 + |size|] == size && t[40..] == m
  {
    RowPieces(a, b, c, d, e, m);
    var t := a + b + c + "x" + d + e + m;
    assert t[..6] == a && t[6..13] == b && t[13..17] == c && t[18..25] == d && t[25..40] == e;
    PieceStart(t, 6, a, |itag|);
    PieceHead(t, 6, 13, b, |ext|);
    PieceTail(t, 13, 17, c, |width|);
    PieceHead(t, 18, 25, d, |height|);
    PieceHead(t, 25, 40, e, |size|);
  }

  /** `TextColumns` over the rendered fields. */
  lemma RowColumns(itag: string, ext: string, width: string, height: string, size: string, mime: string)
    requires |itag| <= 6 && |ext| <= 7 && |width| <= 4 && |height| <= 7 && |size| <= 15
    ensures var t := PadRight(itag, 6) + PadRight(ext, 7) + PadLeft(width, 4) + "x" + PadRight(height, 7)
                     + PadRight(size, 15) + mime;
      |t| == 40 + |mime|
      && t[..|itag|] == itag && t[6..6 + |ext|] == ext && t[17 - |width|..17] == width && t[17] == 'x'
      && t[18..18 + |height|] == height && t[25..25 + |size|] == size && t[40..] == mime
  {
    FittedRowPieces(PadRight(itag, 6), PadRight(ext, 7), PadLeft(width, 4), PadRight(height, 7), PadRight(size, 15),
                    mime, itag, ext, width, height, size);
  }

  /** Padding never truncates: a field wider than its column is written whole. */
  lemma TextNeverTruncates(o: DownloadOption)
    ensures |Text(o)| >= |IntToString(o.itag)| + |o.fileExtension| + |IntToString(o.width)| + 1
                         + |IntToString(o.height)| + |o.fileSize| + |o.mimeType|
    ensures Text(o)[..|IntToString(o.itag)|] == IntToString(o.itag)
  {
    RowNeverTruncates(IntToString(o.itag), o.fileExtension, IntToString(o.width), IntToString(o.height),
                      o.fileSize, o.mimeType);
  }

  /** `TextNeverTruncates` over the rendered fields. */
  lemma RowNeverTruncates(itag: string, ext: string, width: string, height: string, size: string, mime: string)
    ensures var t := PadRight(itag, 6) + PadRight(ext, 7) + PadLeft(width, 4) + "x" + PadRight(height, 7)
                     + PadRight(size, 15) + mime;
      |t| >= |itag| + |ext| + |width| + 1 + |height| + |size| + |mime| && t[..|itag|] == itag
  {
    var a, b, c, d, e := PadRight(itag, 6), PadRight(ext, 7), PadLeft(width, 4), PadRight(height, 7), PadRight(size, 15);
    RowPieces(a, b, c, d, e, mime);
    var t := a + b + c + "x" + d + e + mime;
    PieceStart(t, |a|, a, |itag|);
  }

}
