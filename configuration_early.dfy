/**
 * `config::parse` of the first revision: no wrapper, no comment filter, and
 * its own error type, which renders with a fixed prefix.
 */
module ConfigurationEarly {
  import opened Prelude
  import opened UrlFile

  /** The values `parse_cli_args` hands over. */
  datatype CliArgs = CliArgs(fromFilePath: Option<string>, outputDir: string, urls: Option<seq<string>>)

  datatype Config = Config(videoUrls: seq<string>, outputDir: string)

  datatype ParseConfigError = ParseConfigError(message: string)

  const NoUrls: string := "no urls to be downloaded"
  const DisplayPrefix: string := "invalid program arguments provided: "

  /** `Display`: the fixed prefix, then the message as it is. */
  function Display(e: ParseConfigError): (r: string)
    ensures |r| == |DisplayPrefix| + |e.message|
    ensures r[..|DisplayPrefix|] == DisplayPrefix && r[|DisplayPrefix|..] == e.message
  {
    DisplayPrefix + e.message
  }

  /** Different errors render differently: the message can be read back from the text. */
  lemma DisplayInjective(a: ParseConfigError, b: ParseConfigError)
    requires Display(a) == Display(b)
    ensures a == b
  {
    assert a.message == Display(a)[|DisplayPrefix|..];
  }

  /** The positional urls, or none. */
  function Positional(urls: Option<seq<string>>): seq<string>
  {
    if urls.Some? then urls.value else []
  }

  /** `parse`: urls must be given; `video_urls` grows by the positional urls, then by the non-blank lines of the file. */
  method Parse(args: CliArgs, fileContents: string) returns (r: Result<Config, ParseConfigError>)
    ensures r.Err? <==> args.urls.None? && args.fromFilePath.None?
    ensures r.Err? ==> r.error == ParseConfigError(NoUrls)
    ensures r.Ok? ==> r.value.outputDir == args.outputDir
    ensures r.Ok? ==> r.value.videoUrls == Positional(args.urls)
                                           + (if args.fromFilePath.Some? then NonBlankLines(fileContents) else [])
  {
    if args.urls.None? && args.fromFilePath.None? {
      return Err(ParseConfigError(NoUrls));
    }
    var videoUrls: seq<string> := [];
    if args.urls.Some? {
      videoUrls := videoUrls + args.urls.value;
    }
    if args.fromFilePath.Some? {
      var urlsFromFile := NonBlankLines(fileContents);
      videoUrls := videoUrls + urlsFromFile;
    }
    return Ok(Config(videoUrls, args.outputDir));
  }
}
