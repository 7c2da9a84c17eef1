/**
 * The earlier revision of `DownloadOptions::try_from`: the same checks in
 * the same order, but an option carries the quality label instead of the
 * frame size, and `get_title` wraps the title in `Ok`. That revision's
 * `UndownloadableVideo` is `Undownloadable` here and its `ApplicationError`
 * is `Application`.
 */
module DownloadOptionsEarly {
  import opened Prelude
  import opened Seqs
  import opened RustInt
  import opened RustText
  import opened Errors
  import opened FileExtension
  import DownloadOptions

  /** The fields of a format this revision reads. */
  datatype Format = Format(
    itag: I32,
    url: Option<string>,
    qualityLabel: string,
    mimeType: string,
    bitrate: I32,
    approxDurationMs: string)

  datatype StreamingData = StreamingData(formats: seq<Format>)

  datatype VideoDetails = VideoDetails(videoId: string, title: string)

  datatype PlayerResponse = PlayerResponse(streamingData: Option<StreamingData>, videoDetails: VideoDetails)

  datatype DownloadOption = DownloadOption(
    videoId: string,
    title: string,
    fileExtension: string,
    itag: I32,
    url: string,
    qualityLabel: string,
    fileSize: string,
    mimeType: string)

  predicate Converts(f: Format)
  {
    f.url.Some? && ParseI32(f.approxDurationMs).Some?
  }

  predicate EstimateFits(f: Format)
  {
    Converts(f) ==> InI32(f.bitrate * TruncDiv(ParseI32(f.approxDurationMs).value, 1000))
  }

  /** No overflow in any format the loop reaches. */
  predicate EstimatesFit(formats: seq<Format>)
  {
    formats == [] || (EstimateFits(formats[0]) && (Converts(formats[0]) ==> EstimatesFit(formats[1..])))
  }

  /** The body of the loop, for one format: the url is checked before the duration. */
  function OptionOf(videoId: string, title: string, sizeText: int -> string, f: Format): (r: Result<DownloadOption, YouDlError>)
    ensures r.Ok? <==> Converts(f)
    ensures f.url.None? ==> r == Err(Undownloadable(title, DownloadOptions.MissingUrl))
    ensures f.url.Some? && !Converts(f) ==> r == Err(InvalidResponse(DownloadOptions.BadDuration))
    ensures r.Ok? ==> r.value == DownloadOption(videoId, title, DownloadOptions.ExtensionOrEmpty(f.itag), f.itag,
                                                f.url.value, f.qualityLabel,
                                                sizeText(DownloadOptions.EstimatedSize(f.bitrate, ParseI32(f.approxDurationMs).value)),
                                                f.mimeType)
  {
    match f.url
    case None => Err(Undownloadable(title, DownloadOptions.MissingUrl))
    case Some(url) =>
      match ParseI32(f.approxDurationMs)
      case None => Err(InvalidResponse(DownloadOptions.BadDuration))
      case Some(ms) =>
        Ok(DownloadOption(videoId, title, DownloadOptions.ExtensionOrEmpty(f.itag), f.itag, url, f.qualityLabel,
                          sizeText(DownloadOptions.EstimatedSize(f.bitrate, ms)), f.mimeType))
  }

  function Step(videoId: string, title: string, sizeText: int -> string): Format -> Result<DownloadOption, YouDlError>
  {
    f => OptionOf(videoId, title, sizeText, f)
  }

  /** What this revision's `try_from` returns. */
  function OptionsFrom(response: PlayerResponse, sizeText: int -> string): Result<seq<DownloadOption>, YouDlError>
  {
    var title := DownloadOptions.ShownTitle(response.videoDetails.title);
    match response.streamingData
    case None => Err(Undownloadable(title, DownloadOptions.MissingStreamingData))
    case Some(data) =>
      if |data.formats| == 0 then Err(Undownloadable(title, DownloadOptions.NoOptions))
      else Collect(data.formats, Step(response.videoDetails.videoId, title, sizeText))
  }

  /** This revision's `try_from`: push one option per format, stopping at the first error. */
  method TryFrom(response: PlayerResponse, sizeText: int -> string) returns (r: Result<seq<DownloadOption>, YouDlError>)
    requires response.streamingData.Some? ==> EstimatesFit(response.streamingData.value.formats)
    ensures r == OptionsFrom(response, sizeText)
  {
    var videoId := response.videoDetails.videoId;
    var title := DownloadOptions.ShownTitle(response.videoDetails.title);
    if response.streamingData.None? {
      return Err(Undownloadable(title, DownloadOptions.MissingStreamingData));
    }
    var formats := response.streamingData.value.formats;
    if |formats| == 0 {
      return Err(Undownloadable(title, DownloadOptions.NoOptions));
    }
    ghost var step := Step(videoId, title, sizeText);
    var options: seq<DownloadOption> := [];
    for i := 0 to |formats|
      invariant Collect(formats[..i], step) == Ok(options)
      invariant EstimatesFit(formats[i..])
    {
      var f := formats[i];
      var fileExtension := DownloadOptions.ExtensionOrEmpty(f.itag);
      if f.url.None? {
        FailsAt(formats, step, i);
        return Err(Undownloadable(title, DownloadOptions.MissingUrl));
      }
      var url := f.url.value;
      var durationMs := ParseI32(f.approxDurationMs);
      if durationMs.None? {
        FailsAt(formats, step, i);
        return Err(InvalidResponse(DownloadOptions.BadDuration));
      }
      assert InI32(f.bitrate * TruncDiv(durationMs.value, 1000));
      var fileSize := sizeText(DownloadOptions.EstimatedSize(f.bitrate, durationMs.value));
      var option := DownloadOption(videoId, title, fileExtension, f.itag, url, f.qualityLabel, fileSize, f.mimeType);
      CollectPush(formats, step, i, options, option);
      options := options + [option];
      assert formats[i + 1..] == formats[i..][1..];
    }
    assert formats[..|formats|] == formats;
    return Ok(options);
  }

  lemma FailsAt(formats: seq<Format>, step: Format -> Result<DownloadOption, YouDlError>, i: nat)
    requires i < |formats| && Collect(formats[..i], step).Ok? && step(formats[i]).Err?
    ensures Collect(formats, step) == Err(step(formats[i]).error)
  {
    forall j | 0 <= j < i ensures step(formats[j]).Ok? {
      assert formats[..i][j] == formats[j];
    }
    assert FirstFailureAt(formats, step, i);
    CollectFirstFailure(formats, step, i);
  }

  /** Missing streaming data, then an empty format list, are the first two errors. */
  lemma EarlyErrors(response: PlayerResponse, sizeText: int -> string)
    ensures response.streamingData.None? ==>
      OptionsFrom(response, sizeText) == Err(Undownloadable(DownloadOptions.ShownTitle(response.videoDetails.title),
                                                            DownloadOptions.MissingStreamingData))
    ensures response.streamingData.Some? && response.streamingData.value.formats == [] ==>
      OptionsFrom(response, sizeText) == Err(Undownloadable(DownloadOptions.ShownTitle(response.videoDetails.title),
                                                            DownloadOptions.NoOptions))
  {
  }

  /**
   * Success means at least one format, all of which convert; the options are
   * then one per format, in order, with itag, url, quality label and mime
   * type copied.
   */
  lemma OptionsFromOk(response: PlayerResponse, sizeText: int -> string)
    ensures OptionsFrom(response, sizeText).Ok? <==>
      response.streamingData.Some? && |response.streamingData.value.formats| > 0
      && forall i :: 0 <= i < |response.streamingData.value.formats| ==> Converts(response.streamingData.value.formats[i])
    ensures OptionsFrom(response, sizeText).Ok? ==>
      var formats := response.streamingData.value.formats;
      var options := OptionsFrom(response, sizeText).value;
      |options| == |formats| > 0
      && forall i :: 0 <= i < |options| ==>
           options[i].videoId == response.videoDetails.videoId
           && options[i].title == DownloadOptions.ShownTitle(response.videoDetails.title)
           && options[i].itag == formats[i].itag
           && options[i].url == formats[i].url.value
           && options[i].qualityLabel == formats[i].qualityLabel
           && options[i].mimeType == formats[i].mimeType
           && options[i].fileExtension == DownloadOptions.ExtensionOrEmpty(formats[i].itag)
  {
    if response.streamingData.Some? && |response.streamingData.value.formats| > 0 {
      var formats := response.streamingData.value.formats;
      var step := Step(response.videoDetails.videoId, DownloadOptions.ShownTitle(response.videoDetails.title), sizeText);
      CollectOkIff(formats, step);
      assert forall i :: 0 <= i < |formats| ==> (step(formats[i]).Ok? <==> Converts(formats[i]));
    }
  }

  /** A failure is the error of the first format that does not convert: missing url first, then the duration. */
  lemma OptionsFromFailure(response: PlayerResponse, sizeText: int -> string)
    requires response.streamingData.Some? && |response.streamingData.value.formats| > 0
    requires OptionsFrom(response, sizeText).Err?
    ensures var formats := response.streamingData.value.formats;
      exists i :: 0 <= i < |formats| && !Converts(formats[i])
        && (forall j :: 0 <= j < i ==> Converts(formats[j]))
        && OptionsFrom(response, sizeText).error ==
             if formats[i].url.None? then Undownloadable(DownloadOptions.ShownTitle(response.videoDetails.title), DownloadOptions.MissingUrl)
             else InvalidResponse(DownloadOptions.BadDuration)
  {
    var formats := response.streamingData.value.formats;
    var step := Step(response.videoDetails.videoId, DownloadOptions.ShownTitle(response.videoDetails.title), sizeText);
    var i :| FirstFailureAt(formats, step, i) && step(formats[i]) == Err(OptionsFrom(response, sizeText).error);
    assert forall j :: 0 <= j < i ==> step(formats[j]).Ok?;
    assert forall j :: 0 <= j < i ==> Converts(formats[j]);
    assert !Converts(formats[i]);
  }

  /** `get_title`: always `Ok`, with the title of the first option. */
  function GetTitle(options: seq<DownloadOption>): (r: Result<string, YouDlError>)
    requires |options| > 0
    ensures r == Ok(options[0].title)
  {
    Ok(options[0].title)
  }

  /** After a successful conversion `get_title` succeeds with the shown title. */
  lemma TitleOfOptions(response: PlayerResponse, sizeText: int -> string)
    requires OptionsFrom(response, sizeText).Ok?
    ensures |OptionsFrom(response, sizeText).value| > 0
    ensures GetTitle(OptionsFrom(response, sizeText).value) == Ok(DownloadOptions.ShownTitle(response.videoDetails.title))
  {
    OptionsFromOk(response, sizeText);
  }

  /** `Display`: `{:<5}{:<6}{:<10}{}` over itag, quality label, size and mime type. */
  function Text(o: DownloadOption): string
  {
    PadRight(IntToString(o.itag), 5) + PadRight(o.qualityLabel, 6) + PadRight(o.fileSize, 10) + o.mimeType
  }

  /** When the fields fit, the quality label starts at 5, the size at 11 and the mime type at 21. */
  lemma TextColumns(o: DownloadOption)
    requires |IntToString(o.itag)| <= 5 && |o.qualityLabel| <= 6 && |o.fileSize| <= 10
    ensures var t := Text(o);
      |t| == 21 + |o.mimeType|
      && t[..|IntToString(o.itag)|] == IntToString(o.itag)
      && t[5..5 + |o.qualityLabel|] == o.qualityLabel
      && t[11..11 + |o.fileSize|] == o.fileSize
      && t[21..] == o.mimeType
  {
    LeftAlignedColumns(IntToString(o.itag), 5, o.qualityLabel, 6, o.fileSize, 10, o.mimeType);
  }
}
