/**
 * `config::parse` of the latest revision: after the command line is read,
 * a wrapper run needs youtube-dl, some source of urls must be given, and the
 * urls are the positional ones followed by the url lines of the file.
 *
 * The parsed arguments, whether `youtube-dl -h` succeeds and the contents of
 * the url file are inputs; creating the output directory and reading the
 * file are not part of this model.
 */
module Configuration {
  import opened Prelude
  import opened UrlFile

  /** The values `raw_cli_args::parse` hands over. */
  datatype RawCliArgs = RawCliArgs(
    fromFilePath: Option<string>,
    outputDir: string,
    urls: Option<seq<string>>,
    useWrapper: bool)

  datatype Config = Config(videoUrls: seq<string>, outputDir: string, useWrapper: bool)

  datatype ConfigError = ConfigError(message: string)

  const WrapperUnavailable: string := "youtube-dl is not available"
  const NoUrls: string := "no urls to be downloaded"

  /** The positional urls, or none. */
  function Positional(urls: Option<seq<string>>): seq<string>
  {
    if urls.Some? then urls.value else []
  }

  /**
   * `parse`: the wrapper check comes first, then the check that urls were
   * given at all; `video_urls` grows by the positional urls, then by the url
   * lines of the file. An empty file is no error.
   */
  method Parse(args: RawCliArgs, youtubeDlAvailable: bool, fileContents: string) returns (r: Result<Config, ConfigError>)
    ensures args.useWrapper && !youtubeDlAvailable <==> r == Err(ConfigError(WrapperUnavailable))
    ensures (!(args.useWrapper && !youtubeDlAvailable) && args.urls.None? && args.fromFilePath.None?)
            <==> r == Err(ConfigError(NoUrls))
    ensures r.Ok? <==> !(args.useWrapper && !youtubeDlAvailable) && (args.urls.Some? || args.fromFilePath.Some?)
    ensures r.Ok? ==> r.value.outputDir == args.outputDir && r.value.useWrapper == args.useWrapper
    ensures r.Ok? ==> r.value.videoUrls == Positional(args.urls)
                                           + (if args.fromFilePath.Some? then UrlLines(fileContents) else [])
  {
    if args.useWrapper && !youtubeDlAvailable {
      return Err(ConfigError(WrapperUnavailable));
    }
    if args.urls.None? && args.fromFilePath.None? {
      return Err(ConfigError(NoUrls));
    }
    var videoUrls: seq<string> := [];
    if args.urls.Some? {
      videoUrls := videoUrls + args.urls.value;
    }
    if args.fromFilePath.Some? {
      var urlsFromFile := UrlLines(fileContents);
      videoUrls := videoUrls + urlsFromFile;
    }
    return Ok(Config(videoUrls, args.outputDir, args.useWrapper));
  }
}
