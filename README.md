# you-dl core, modelled in Dafny

you-dl downloads YouTube videos. It can run in two ways. The native one reads the player response of a video and turns its formats into download options. The wrapper one asks `youtube-dl -F` for the formats and parses the rows it prints. This project models the parts of the program that are pure logic or local state, and proves what they promise:

- `extract_video_id`, with its regex and its test corpus (`VideoId`, `VideoIdCorpus`);
- the itag → file extension table (`FileExtension`);
- `format_file_size` (`FileSize`);
- `DownloadOptions::try_from`, `get_title` and `Display`, in the current revision (`DownloadOptions`) and in the earlier `you_dl` revision (`DownloadOptionsEarly`);
- the `youtube-dl -F` parser, in the current revision (`FileFormats`) and the earlier one (`FileFormatsEarly`);
- URL-list assembly in `config::parse`, in three revisions (`Configuration`, `ConfigurationEarly`, `CliConfiguration`), with the line filters of `read_urls_from_file` (`UrlFile`);
- the `YouDlError` taxonomy and its `Display` (`Errors`).

Supporting modules:

- `Prelude`: `Option` and `Result`.
- `Seqs`: `filter`, and `collect` into a `Result`, which stops at the first error.
- `RustText`: `trim`, `lines`, `split_whitespace`, `starts_with`/`ends_with`, `replace` and `format!` padding.
- `RustInt`: `i32`, `str::parse::<i32>`, `to_string`, truncating division and `i32::pow`.

### How the model reads the source

- **The regex.** `^.*(?:…)([^#\&\?]*).*` is stated without a search engine. The leading `.*` cannot cross a `'\n'`, so the match uses the rightmost marker on the first line. The id is the longest run of characters from that marker up to `#`, `&` or `?`. `IsCapture` is that match, and `CaptureUnique` shows there is only one.
- **Numbers.** Rust's `i32` is a subset type of `int`. Division truncates toward zero (`TruncDiv`). An `i32::pow` that would overflow is `None`, standing for the panic of a debug build.
- **Out-of-scope values.**
  - `{:.2}` on an `f64` is a function parameter `render`. `ExactOnHundredths` states what `render` must do for the test value to come out as `10.00`.
  - `format_file_size(i32)` is called by the current `try_from` but is not among the modelled files. It is the parameter `sizeText`. The earlier `try_from` passes an `i32` to the `&str` function that `FileSize` models, which does not type-check, so it takes `sizeText` too.
- **The config revisions.** Each revision of `config::parse` takes as plain inputs:
  - the parsed command-line values;
  - whether youtube-dl is available;
  - the contents of the url file.
- **The test corpus.** The test list of `extract_video_id` appears twice, at `you_dl/src/utils/extract_video_id.rs:24-46` and `you_dl/src/lib.rs:121-143`. The two copies hold the same 23 URLs, and 19 of them are distinct. Each distinct URL has its own lemma proving that `ExtractVideoId` returns `dQw4w9WgXcQ` for it.

## Model

| member | source | states |
|---|---|---|
| VideoId.ExtractVideoId | you_dl/src/utils/extract_video_id.rs:4-15 | `Err` exactly when no marker (`youtu.be/`, `v/`, `vi/`, `u/<word char>/`, `embed/`, `?v=`, `?vi=`, `watch?v=`, `&v=`, `&vi=`) starts on the first line, and then the error is `InvalidURL` with the url unchanged; otherwise the id is the capture of the regex and contains no `#`, `&` or `?` |
| VideoId.ExtractReturnsCapture | you_dl/src/lib.rs:37-48 | any match of the regex (the inline copy is the same expression) is exactly what is returned |
| VideoId.CaptureUnique | you_dl/src/utils/extract_video_id.rs:7 | the regex matches in one way only: the marker position and the captured span are determined by the url |
| VideoId.MarkerAt | you_dl/src/utils/extract_video_id.rs:7 | a marker the alternation matches is 2 to 9 characters long and lies within the url |
| VideoId.LineEnd | you_dl/src/utils/extract_video_id.rs:7 | the leading `.*` reaches up to the first `'\n'` and no further |
| VideoId.LastMarker | you_dl/src/utils/extract_video_id.rs:7 | the greedy `.*` picks the rightmost marker on the first line: there is none after it, and none at all when it reports none |
| VideoId.RunEnd | you_dl/src/utils/extract_video_id.rs:7 | `[^#\&\?]*` takes every character up to the first `#`, `&` or `?`, or to the end |
| VideoId.MarkerShape | you_dl/src/utils/extract_video_id.rs:7 | every marker ends with `/`, `v=` or `vi=` |
| VideoId.NoMarkerFrom | you_dl/src/utils/extract_video_id.rs:7 | a stretch with no `/` and no `v=`/`vi=` holds no marker |
| VideoId.ExtractAfterMarker | you_dl/src/utils/extract_video_id.rs:7-14 | a single-line url whose last marker is followed by `id` and then a delimiter or the end yields exactly `id` |
| VideoId.LineEndWithoutNewline | you_dl/src/utils/extract_video_id.rs:7 | without a `'\n'` the first line is the whole url |
| VideoId.YoutuBeMarker | you_dl/src/utils/extract_video_id.rs:7 | `youtu.be/` is a 9-character marker and no other marker starts inside it |
| VideoId.VSlashMarker | you_dl/src/utils/extract_video_id.rs:7 | `v/` is a 2-character marker with none inside it |
| VideoId.ViSlashMarker | you_dl/src/utils/extract_video_id.rs:7 | `vi/` is a 3-character marker with none inside it |
| VideoId.EmbedMarker | you_dl/src/utils/extract_video_id.rs:7 | `embed/` is a 6-character marker with none inside it |
| VideoId.QueryVMarker | you_dl/src/utils/extract_video_id.rs:7 | `?v=` and `&v=` are 3-character markers with none inside them |
| VideoId.QueryViMarker | you_dl/src/utils/extract_video_id.rs:7 | `?vi=` and `&vi=` are 4-character markers with none inside them |
| VideoId.UserMarker | you_dl/src/utils/extract_video_id.rs:7 | `u/<digit>/` is a 4-character marker with none inside it |
| VideoIdCorpus.ExtractsId | you_dl/src/utils/extract_video_id.rs:49-52 | a url whose last marker is followed by the id and a delimiter yields the id |
| VideoIdCorpus.ExtractsIdAtEnd | you_dl/src/utils/extract_video_id.rs:49-52 | a url ending with a marker and the id yields the id |
| VideoIdCorpus.ExtractsIdBeforeVid | you_dl/src/utils/extract_video_id.rs:49-52 | a later `videos=` parameter is no marker, so the id before it is returned |
| VideoIdCorpus.NoCookieEmbed | you_dl/src/utils/extract_video_id.rs:24 | the no-cookie embed url yields `dQw4w9WgXcQ` |
| VideoIdCorpus.UserPageDigitOne | you_dl/src/utils/extract_video_id.rs:25 | the `#p/u/1/` user-page url yields `dQw4w9WgXcQ` |
| VideoIdCorpus.WatchWithFeature | you_dl/src/utils/extract_video_id.rs:26 | `watch?v=…&feature=channel` yields `dQw4w9WgXcQ` |
| VideoIdCorpus.WatchWithPlaylist | you_dl/src/utils/extract_video_id.rs:27 | `watch?v=…&playnext_from=TL&videos=…` yields `dQw4w9WgXcQ` |
| VideoIdCorpus.ScreeningRoom | you_dl/src/utils/extract_video_id.rs:28 | `ytscreeningroom?v=` yields `dQw4w9WgXcQ` |
| VideoIdCorpus.UserPageDigitTwo | you_dl/src/utils/extract_video_id.rs:29 | the `#p/a/u/2/` user-page url yields `dQw4w9WgXcQ` |
| VideoIdCorpus.ShortLink | you_dl/src/utils/extract_video_id.rs:30 | `youtu.be/<id>` yields `dQw4w9WgXcQ` |
| VideoIdCorpus.WatchSharedFromShortLink | you_dl/src/utils/extract_video_id.rs:31 | `watch?v=…&feature=youtu.be` yields `dQw4w9WgXcQ`: the later `youtu.be` is not followed by `/` |
| VideoIdCorpus.UserPageWithQuery | you_dl/src/utils/extract_video_id.rs:33 | the user-page url with `?rel=0` yields `dQw4w9WgXcQ` |
| VideoIdCorpus.Embed | you_dl/src/utils/extract_video_id.rs:37 | `embed/<id>?rel=0` yields `dQw4w9WgXcQ` |
| VideoIdCorpus.Watch | you_dl/src/utils/extract_video_id.rs:38 | `watch?v=<id>` yields `dQw4w9WgXcQ` |
| VideoIdCorpus.VPath | you_dl/src/utils/extract_video_id.rs:39 | `/v/<id>?feature=…` yields `dQw4w9WgXcQ` |
| VideoIdCorpus.ViPath | you_dl/src/utils/extract_video_id.rs:40 | `/vi/<id>?feature=…` yields `dQw4w9WgXcQ` |
| VideoIdCorpus.RootV | you_dl/src/utils/extract_video_id.rs:41 | `/?v=<id>&feature=…` yields `dQw4w9WgXcQ` |
| VideoIdCorpus.WatchGdata | you_dl/src/utils/extract_video_id.rs:42 | `www…/watch?v=<id>&feature=youtube_gdata_player` yields `dQw4w9WgXcQ` |
| VideoIdCorpus.RootVi | you_dl/src/utils/extract_video_id.rs:43 | `/?vi=<id>&feature=…` yields `dQw4w9WgXcQ` |
| VideoIdCorpus.BareWatchV | you_dl/src/utils/extract_video_id.rs:44 | `youtube.com/watch?v=<id>&…` yields `dQw4w9WgXcQ` |
| VideoIdCorpus.BareWatchVi | you_dl/src/utils/extract_video_id.rs:45 | `youtube.com/watch?vi=<id>&…` yields `dQw4w9WgXcQ` |
| VideoIdCorpus.ShortLinkGdata | you_dl/src/utils/extract_video_id.rs:46 | `youtu.be/<id>?feature=…` yields `dQw4w9WgXcQ` |
| VideoIdCorpus.EmptyIdBeforeDelimiter | you_dl/src/utils/extract_video_id.rs:7 | a marker followed at once by a delimiter matches with an empty id, which is `Ok("")`, not an error |
| FileExtension.Find | src/utils/get_file_extension.rs:30 | `find` is `None` exactly when no pair has the key, and otherwise returns the value of a pair with that key |
| FileExtension.GetFileExtension | src/utils/get_file_extension.rs:29-31 | `None` exactly for the itags that are not in the table |
| FileExtension.AscendingFrom | src/utils/get_file_extension.rs:2-27 | proof step for `FileExtension.AscendingKeysAreDistinct` |
| FileExtension.AscendingKeysAreDistinct | src/utils/get_file_extension.rs:2-27 | proof step for `FileExtension.PairsKeysDistinct` |
| FileExtension.PairsKeysDistinct | src/utils/get_file_extension.rs:2-27 | the 24 itags of the table are all different |
| FileExtension.FindUnique | src/utils/get_file_extension.rs:30 | with distinct keys, `find` returns `v` exactly when `(key, v)` is a pair of the table |
| FileExtension.GetFileExtensionIff | src/utils/get_file_extension.rs:29-31 | `get_file_extension(itag) == Some(ext)` exactly when `(itag, ext)` is in the table |
| FileExtension.FlvItags | src/utils/get_file_extension.rs:3-10 | `flv` exactly for itags 5, 6, 34 and 35 |
| FileExtension.ThreeGpItags | src/utils/get_file_extension.rs:5-11 | `3gp` exactly for itags 13, 17 and 36 |
| FileExtension.Mp4Itags | src/utils/get_file_extension.rs:7-23 | `mp4` exactly for itags 18, 22, 37, 38, 59, 78, 82, 83, 84 and 85 |
| FileExtension.WebmItags | src/utils/get_file_extension.rs:14-26 | `webm` exactly for itags 43, 44, 45, 46, 100, 101 and 102 |
| FileExtension.ExtensionIsKnownContainer | src/utils/get_file_extension.rs:2-27 | every extension returned is one of `flv`, `3gp`, `mp4`, `webm` |
| FileExtension.UnknownItag | src/utils/get_file_extension.rs:29-31 | an itag outside the 24 listed ones has no extension |
| FileSize.FormattedFileSize | you_dl/src/utils/format_file_size.rs:7-11 | text that does not parse as an `i32` comes back as itself followed by ` B` |
| FileSize.FormatFileSize | you_dl/src/utils/format_file_size.rs:7-23 | the loop over the suffixes returns what the bucket search specifies, including the `pow` overflow that ends it at `i = 3` |
| FileSize.Powers | you_dl/src/utils/format_file_size.rs:15-16 | the bounds `1024^0 … 1024^4` as the loop computes them; `1024^4` exceeds `i32` |
| FileSize.PowStrictlyIncreasing | you_dl/src/utils/format_file_size.rs:15-16 | proof step for `FileSize.BucketsDisjoint` |
| FileSize.BucketsDisjoint | you_dl/src/utils/format_file_size.rs:17 | a count lies in at most one bucket `[1024^i, 1024^(i+1))` |
| FileSize.BucketOf | you_dl/src/utils/format_file_size.rs:13-17 | every count in `[1, 2^30)` lies in bucket 0, 1 or 2 |
| FileSize.BucketFormatting | you_dl/src/utils/format_file_size.rs:17-19 | a count in bucket `i < 3` is shown as `render(n / 1024^i)`, a space and the `i`-th suffix |
| FileSize.BucketsOther | you_dl/src/utils/format_file_size.rs:17 | proof step for `FileSize.BucketFormatting` |
| FileSize.OutOfRangeOverflows | you_dl/src/utils/format_file_size.rs:13-21 | a count below 1 or at least `2^30` reaches `i = 3`, where `i32::pow(1024, 4)` overflows |
| FileSize.ParsedCountNeverFallsBack | you_dl/src/utils/format_file_size.rs:22 | whenever a parsed count is formatted, it was in `[1, 2^30)`: the fallback on line 22 is never reached |
| FileSize.FormattedEndsWithSuffix | you_dl/src/utils/format_file_size.rs:1-22 | every result ends with ` B`, ` KiB` or ` MiB` |
| FileSize.TenMebibytes | you_dl/src/utils/format_file_size.rs:34-37 | `"10485760"` is shown as `10.00 MiB` when `{:.2}` is exact on hundredths |
| FileSize.ParsesTenMebibytes | you_dl/src/utils/format_file_size.rs:8 | `"10485760"` parses as the `i32` 10485760 |
| FileSize.RendersTen | you_dl/src/utils/format_file_size.rs:18-19 | `10485760 / 1024^2` is rendered `10.00` |
| FileSize.UnparsableEchoed | you_dl/src/utils/format_file_size.rs:29-32 | `"1abc"` is shown as `1abc B` |
| RustInt.ParseI32 | you_dl/src/utils/format_file_size.rs:8 | a value `parse::<i32>` accepts always lies within `i32` |
| RustInt.ParseIntToString | src/models/download_options.rs:68 | parsing the decimal text of an `i32` gives the number back |
| RustInt.TruncDiv | src/models/download_options.rs:73 | `/` on `i32` truncates toward zero: the quotient is the magnitude of `a` divided by `b`, with the sign of `a` |
| RustInt.Pow | you_dl/src/utils/format_file_size.rs:15 | proof step for `FileSize.FormatFileSize` |
| RustText.TrimIsSlice | src/models/you_dl_error.rs:17 | `trim` returns a contiguous slice of its input with only whitespace cut off at either end |
| RustText.TrimEndsNotWhitespace | src/models/you_dl_error.rs:17 | what `trim` returns neither starts nor ends with whitespace |
| RustText.TrimEmptyIff | src/config/mod.rs:71 | a line trims to nothing exactly when it is all whitespace |
| RustText.TrimIdempotent | src/models/you_dl_error.rs:17 | trimming twice changes nothing more |
| RustText.Lines | src/wrapper/file_format.rs:15 | no line contains a `'\n'` |
| RustText.LinesOfTerminated | src/wrapper/file_format.rs:15 | `lines` gives back the lines of a text written line by line |
| RustText.SplitWhitespace | src/wrapper/file_format.rs:23 | `split_whitespace` yields non-empty words without whitespace |
| RustText.SplitWhitespaceOfSpaced | src/wrapper/file_format.rs:23 | words joined by single spaces split back into the same words |
| RustText.SplitWhitespaceKeepsText | src/wrapper/file_format.rs:23 | the words, joined, are exactly the input's non-whitespace characters in order |
| RustText.PadRight | src/models/download_options.rs:22 | `{:<w}` keeps the text in front and is `w` long, or the text's own length when that is more: it never cuts |
| RustText.PadRightPadsWithSpaces | src/models/download_options.rs:22 | what `{:<w}` adds after the text is spaces |
| RustText.PadLeft | src/models/download_options.rs:22 | `{:>w}` keeps the text at the end and is `w` long, or the text's own length when that is more: it never cuts |
| RustText.PadLeftPadsWithSpaces | src/models/download_options.rs:22 | what `{:>w}` adds before the text is spaces |
| RustText.ReplaceChar | src/models/download_options.rs:42 | `replace` of one character changes exactly that character and keeps the length |
| RustText.LeftAlignedColumns | src/wrapper/file_format.rs:48 | left-aligned fields that fit their widths start at the column offsets |
| Seqs.Filter | src/wrapper/file_format.rs:16 | `filter` keeps exactly the elements that satisfy the predicate, and never lengthens |
| Seqs.FilterAppend | src/wrapper/file_format.rs:16 | filtering distributes over concatenation, so order is kept |
| Seqs.FilterFilter | src/config/mod.rs:71-72 | two `filter`s in a row keep exactly what satisfies both, in order |
| Seqs.Collect | src/wrapper/file_format.rs:17-18 | `collect` into a `Result` gives one result per element in order, or the error of the first failing element |
| Seqs.CollectOkIff | src/wrapper/file_format.rs:17-18 | the collected result is `Ok` exactly when every step is |
| Seqs.CollectPush | src/models/download_options.rs:76-86 | pushing the next successful result extends the collected prefix |
| Seqs.CollectFirstFailure | src/models/download_options.rs:64-72 | the first failing step's error is the result of the whole |
| Errors.Kind | src/models/you_dl_error.rs:5-12 | there are exactly six kinds of error |
| Errors.StartsWithPrefix | src/models/you_dl_error.rs:17-31 | every error is shown with the fixed prefix of its kind in front |
| Errors.DisplayDeterminesKind | src/models/you_dl_error.rs:16-33 | different kinds never show the same text |
| Errors.KindSignature | src/models/you_dl_error.rs:17-31 | proof step for `Errors.DisplayDeterminesKind` |
| Errors.SignatureInjective | src/models/you_dl_error.rs:17-31 | proof step for `Errors.DisplayDeterminesKind` |
| Errors.TrimmedDisplayIff | src/models/you_dl_error.rs:17-18 | for youtube-dl, application, user and invalid-response errors, two errors of a kind show alike exactly when their trimmed messages are equal |
| Errors.InvalidUrlDisplayInjective | src/models/you_dl_error.rs:19-21 | the url is shown untrimmed: different urls show differently |
| Errors.UndownloadableDisplayInjective | src/models/you_dl_error.rs:22-28 | ``Undownloadable Error for `<title>`: <reason>`` gives back both parts, untrimmed, when the title has no backtick |
| Errors.BacktickAfterTitle | src/models/you_dl_error.rs:25 | the first backtick after the opening one closes a backtick-free title |
| Errors.PrefixCancel | src/models/you_dl_error.rs:17-31 | proof step for `Errors.TrimmedDisplayIff` and `Errors.InvalidUrlDisplayInjective` |
| DownloadOptions.ShownTitle | src/models/download_options.rs:42 | the title keeps its length, every `+` becomes a space and every other character stays |
| DownloadOptions.OptionOf | src/models/download_options.rs:59-86 | one format converts when it has a url and a duration that parses as an `i32`; the url is checked first; the option copies itag, url, mime type, width and height, and its size is computed from the bitrate and duration |
| DownloadOptions.TryFrom | src/models/download_options.rs:40-90 | the loop pushes one option per format and stops at the first error, as `OptionsFrom` specifies, under the assumption that the size estimate does not overflow `i32` |
| DownloadOptions.FailsAt | src/models/download_options.rs:64-72 | an early return at format `i`, after all earlier formats converted, is the result of the whole conversion |
| DownloadOptions.NoStreamingData | src/models/download_options.rs:43-48 | missing streaming data is `Undownloadable(title, "missing value for streaming_data")` |
| DownloadOptions.NoFormats | src/models/download_options.rs:50-55 | an empty format list is `Undownloadable(title, "no options available to download")` |
| DownloadOptions.OptionsFromOk | src/models/download_options.rs:40-90 | success exactly when there is at least one format and every format converts; then one option per format, in order, with fields copied |
| DownloadOptions.OptionsFromFailure | src/models/download_options.rs:57-72 | a failure is the error of the first format that does not convert: missing url, else the duration |
| DownloadOptions.UnknownItagHasNoExtension | src/models/download_options.rs:60-63 | an itag with no known extension gets the empty extension |
| DownloadOptions.TitleOfOptions | src/models/download_options.rs:31-35 | after a successful conversion `get_title` returns the title with `+` replaced, which holds no `+` |
| DownloadOptions.RowPieces | src/models/download_options.rs:22 | where each piece of the row starts |
| DownloadOptions.TextColumns | src/models/download_options.rs:18-26 | when the fields fit, the `x` is at column 17 and the mime type starts at column 40 |
| DownloadOptions.TextNeverTruncates | src/models/download_options.rs:22 | padding never cuts a field: the itag leads the row whatever its width |
| DownloadOptionsEarly.OptionOf | you_dl/src/models/download_options.rs:58-84 | as in the current revision, with the quality label copied instead of width and height |
| DownloadOptionsEarly.TryFrom | you_dl/src/models/download_options.rs:39-88 | the loop of this revision returns what `OptionsFrom` specifies |
| DownloadOptionsEarly.FailsAt | you_dl/src/models/download_options.rs:63-71 | an early return at format `i` is the result of the whole conversion |
| DownloadOptionsEarly.EarlyErrors | you_dl/src/models/download_options.rs:41-55 | missing streaming data, then an empty format list, give their `Undownloadable` errors |
| DownloadOptionsEarly.OptionsFromOk | you_dl/src/models/download_options.rs:39-88 | success exactly when there is a format and all convert; then one option per format with fields copied |
| DownloadOptionsEarly.OptionsFromFailure | you_dl/src/models/download_options.rs:57-71 | a failure is the error of the first format that does not convert |
| DownloadOptionsEarly.TitleOfOptions | you_dl/src/models/download_options.rs:30-34 | after a successful conversion `get_title` is `Ok` with the shown title |
| DownloadOptionsEarly.TextColumns | you_dl/src/models/download_options.rs:17-25 | `{:<5}{:<6}{:<10}{}`: when the fields fit, they start at columns 0, 5, 11 and 21 |
| FileFormats.ParseWords | src/wrapper/file_format.rs:21-41 | a row parses exactly when it has more than three words; itag, extension and resolution are words 0-2, and the size is the last word when it ends with a size suffix, else `unknown` |
| FileFormats.FromYoutubeDlStdout | src/wrapper/file_format.rs:13-19 | only lines starting with a digit are rows; the result is one format per row in order, or the parse failure exactly when some row has three words or fewer |
| FileFormats.RowsOfTerminated | src/wrapper/file_format.rs:15-16 | for output written line by line, the rows are the written lines that start with a digit |
| FileFormats.HeaderIsNoRow | src/wrapper/file_format.rs:72 | the header line and empty lines are not rows |
| FileFormats.ParseSpacedLine | src/wrapper/file_format.rs:23 | a line of single-spaced words parses as those words |
| FileFormats.MebibyteSizeIsValid | src/wrapper/file_format.rs:63-67 | `1.54MiB` is a valid size |
| FileFormats.NotesAreNoSize | src/wrapper/file_format.rs:63-67 | `(best)` and `(44100Hz)` are no sizes |
| FileFormats.AudioOnlyRow | src/wrapper/file_format.rs:75 | the `140 m4a audio only …` row parses to resolution `audio` and size `unknown` |
| FileFormats.VideoRowWithSize | src/wrapper/file_format.rs:87 | the `398 mp4 1280x720 …` row keeps its size `1.54MiB` |
| FileFormats.TextColumns | src/wrapper/file_format.rs:44-52 | `{:<6}{:<8}{:<11}{}`: when the fields fit, they start at columns 0, 6, 14 and 25 |
| FileFormatsEarly.ParseWords | you_dl/src/wrapper/file_format.rs:20-39 | a row parses exactly when it has more than three words, to words 0, 1, 2 and the last word |
| FileFormatsEarly.FromYoutubeDlStdout | you_dl/src/wrapper/file_format.rs:12-18 | one format per row in order, or the parse failure exactly when some row has three words or fewer |
| FileFormatsEarly.AgreesWithLaterRevision | you_dl/src/wrapper/file_format.rs:20-39 | both revisions accept the same rows and read the same first three words; the sizes agree when the last word is a valid size, and otherwise the later one says `unknown` |
| FileFormatsEarly.SampleRow | you_dl/src/wrapper/file_format.rs:68 | the `136 mp4 1280x720 …` row keeps `1.39MiB` |
| FileFormatsEarly.NoteKeptAsSize | you_dl/src/wrapper/file_format.rs:20-39 | with no suffix check, a closing note such as `(best)` is kept as the size |
| FileFormatsEarly.TextColumns | you_dl/src/wrapper/file_format.rs:42-50 | `{:6}{:8}{:12}{}`: when the fields fit, they start at columns 0, 6, 14 and 26 |
| UrlFile.NonBlankLines | src/config.rs:51-55 | the kept lines are exactly the lines of the file that are not all whitespace |
| UrlFile.UrlLines | src/config/mod.rs:69-74 | the kept lines are exactly the non-blank lines that do not start with `#` or `//` |
| UrlFile.UrlLinesOfTerminated | src/config/mod.rs:69-74 | for a file written line by line, the kept lines are the written lines that pass both filters, verbatim and in order |
| UrlFile.NonBlankLinesOfTerminated | cli/src/config/mod.rs:46-50 | for a file written line by line, the earlier revisions keep the written non-blank lines, verbatim and in order |
| UrlFile.CommentFreeFilesAgree | src/config/mod.rs:72 | the comment filter removes only comments: without comment lines every revision reads the same urls |
| UrlFile.EmptyFile | src/config/mod.rs:38-41 | an empty file yields no urls |
| UrlFile.PaddedUrlKept | src/config/mod.rs:71-73 | whitespace around a url line does not make it blank or a comment; the line is kept with its whitespace |
| UrlFile.NotCommentWithin | src/config/mod.rs:72 | a line starting with whitespace, or a non-comment followed by whitespace, is no comment |
| UrlFile.NotBlankAt | src/config/mod.rs:71 | a line with one character that is not whitespace is kept by the blank filter |
| UrlFile.NotBlankWithin | src/config/mod.rs:71 | text around a non-blank part leaves the line non-blank |
| UrlFile.IndentedCommentKept | src/config/mod.rs:72 | the comment test is on the untrimmed line: an indented `#` or `//` line is kept |
| UrlFile.BlanksAndCommentsDropped | src/config/mod.rs:71-72 | whitespace-only lines and lines starting with `#` or `//` are dropped |
| UrlFile.CommentsKeptByEarlierRevisions | src/config.rs:53 | the earlier revisions keep comment lines |
| Configuration.Parse | src/config/mod.rs:16-48 | the wrapper check fails first, exactly when the wrapper is asked for without youtube-dl; then no urls and no file is the second error; otherwise `Ok` (an empty file included), with the positional urls followed by the file's url lines, and output dir and wrapper flag passed through |
| ConfigurationEarly.Parse | src/config.rs:22-41 | an error exactly when neither urls nor a file are given, with message `no urls to be downloaded`; otherwise the positional urls followed by the non-blank file lines, output dir passed through |
| ConfigurationEarly.DisplayInjective | src/config.rs:14-18 | the message can be read back from the text |
| CliConfiguration.Parse | cli/src/config/mod.rs:15-36 | an error exactly when neither urls nor a file are given; otherwise the positional urls followed by the non-blank file lines, with output dir and wrapper flag passed through |

## Left out

- I/O is not modelled, and each piece becomes a parameter or input:
  - the HTTP fetch of the player response, the downloads and the progress bars;
  - the `youtube-dl` subprocess and its `-h` probe (`src/config/mod.rs:50-59`), which become the boolean `youtubeDlAvailable`;
  - creating the output directory (`src/config/mod.rs:23-28`);
  - reading the url file: its contents are an input string, and the read error on `src/config/mod.rs:62-67` is not modelled;
  - command-line parsing with clap;
  - the `warn!` call on `src/models/download_options.rs:61`, a log side effect.
- The interactive selection of an option, the concurrent dispatch in `main`, and the in-place `remove` in `you_dl/src/lib.rs` are not part of this model.
- `char::is_numeric` is modelled as the ASCII digits, and `\w` as ASCII letters, digits and `_`. Rust's versions of both are Unicode-aware. Whitespace is the full Unicode White_Space set.
- Floating point: `{:.2}` on an `f64` is the parameter `render`, so the results of `format_file_size` hold for any rendering. Only `TenMebibytes` assumes the rendering is exact on values with two decimals.
- `format_file_size(i32)`, which the current revision's `try_from` calls (`src/models/download_options.rs:74`), is the parameter `sizeText`: its definition is not part of this model.
- `FILE_SIZE_SUFFIXES` is defined in a file that is not part of this model. It is taken to be the six suffixes of `you_dl/src/utils/format_file_size.rs:1`.
- `DownloadOptions.TryFrom`: the `i32` product `bitrate * (ms / 1000)` is required not to overflow. Neither the debug-build panic nor the release-build wrap-around is modelled.
- `DownloadOptionsEarly.TryFrom`: the same no-overflow requirement as `DownloadOptions.TryFrom`.
- `DownloadOptionsEarly.TryFrom`: the call to `format_file_size` at `you_dl/src/models/download_options.rs:73` can only resolve to that crate's own `format_file_size(&str)` (`you_dl/src/utils/format_file_size.rs:7`, modelled as `FileSize`). That function takes a `&str`, so the `i32` argument makes this revision fail to build. The model cannot follow a call that does not type-check, so the rendered size is the parameter `sizeText` here as well, as in the current revision.
- `FileSize.FormatFileSize`: where `i32::pow` overflows, the model returns `None`, standing for the debug-build panic. The release-build wrap-around is not modelled.
- `DownloadOptions.GetTitle` requires a non-empty list, where the source panics through `expect`. This is the invariant its comment on line 28 states.
- Superseded error types are not modelled: `you_dl/src/you_dl_error.rs`, `you_dl/src/error.rs`, `you_dl/src/models/you_dl_error.rs` and the config error files. The earlier revisions' `UndownloadableVideo` and `ApplicationError` are `Undownloadable` and `Application` of the one taxonomy.
- Test corpus: there is no lemma over the whole list literal. The 23 entries (19 distinct URLs) are covered one lemma per distinct URL.
- `str::lines` also strips a `'\r'` before each `'\n'`, and a lone `'\r'` that ends a last line with no `'\n'` after it; the model does the same in both cases. The lemmas about files written line by line assume lines that end in no `'\r'`.
- `cli/src/config/mod.rs:34` reads `use_wrapper`, which that revision's argument record lacks. The model gives the record the field, so the revision can be stated on its own terms.
