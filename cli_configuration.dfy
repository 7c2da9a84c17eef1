/**
 * `config::parse` of the `cli` crate: the same merge as the first revision,
 * with only blank lines dropped, and a `use_wrapper` flag passed through.
 * That revision's argument record has no such flag; it is an input here.
 */
module CliConfiguration {
  import opened Prelude
  import opened UrlFile

  /** The values `parse` reads from the parsed command line. */
  datatype CliArgs = CliArgs(fromFilePath: Option<string>, outputDir: string, urls: Option<seq<string>>, useWrapper: bool)

  datatype Config = Config(videoUrls: seq<string>, outputDir: string, useWrapper: bool)

  datatype ConfigError = ConfigError(message: string)

  const NoUrls: string := "no urls to be downloaded"

  /** The positional urls, or none. */
  function Positional(urls: Option<seq<string>>): seq<string>
  {
    if urls.Some? then urls.value else []
  }

  /** `parse`: urls must be given; `video_urls` grows by the positional urls, then by the non-blank lines of the file. */
  method Parse(args: CliArgs, fileContents: string) returns (r: Result<Config, ConfigError>)
    ensures r.Err? <==> args.urls.None? && args.fromFilePath.None?
    ensures r.Err? ==> r.error == ConfigError(NoUrls)
    ensures r.Ok? ==> r.value.outputDir == args.outputDir && r.value.useWrapper == args.useWrapper
    ensures r.Ok? ==> r.value.videoUrls == Positional(args.urls)
                                           + (if args.fromFilePath.Some? then NonBlankLines(fileContents) else [])
  {
    if args.urls.None? && args.fromFilePath.None? {
      return Err(ConfigError(NoUrls));
    }
    var videoUrls: seq<string> := [];
    if args.urls.Some? {
      videoUrls := videoUrls + args.urls.value;
    }
    if args.fromFilePath.Some? {
      var urlsFromFile := NonBlankLines(fileContents);
      videoUrls := videoUrls + urlsFromFile;
    }
    return Ok(Config(videoUrls, args.outputDir, args.useWrapper));
  }
}
