# FFMpeg-Wrapper in Dafny

A Dafny model of the core of FFMpeg-Wrapper, a C# library that builds
ffmpeg command lines, runs ffmpeg and ffprobe, and reads their output back.
It covers:

- the job builders and the argument tokens each one produces. These are the
  transcode job (ffmpeg namespace and the older root-namespace version), the
  concat job, file and null-source inputs, output files, per-stream options,
  filter graphs, codecs and filters.
- the shared `FFMpegArgs` base: the global switches, the run with its
  progress parser, and the classification of the result.
- `CliParser`, which turns ffmpeg's diagnostic lines into time and percent
  progress events.
- `MediaAnalysis`, which derives durations, aspect ratios, dispositions,
  languages and bit depths from an ffprobe report and picks the primary
  stream of each kind.
- `ErrorCodes`, the table from ffmpeg's exit codes to their descriptions,
  and `Utils`, the `[-]hh:mm:ss.ffff` time rendering and quote escaping.

Times are whole TimeSpan ticks of 100 ns. Objects whose setters change
fields are Dafny classes with `modifies` clauses. Records, strategies and
pure helpers are datatypes and functions. Each operation is tied to a
partner: a read-back of the tokens it emits, the invariant it keeps, or a
reference definition. Process execution, file I/O and the clock are
parameters of the model.

Modules, one per file:

| module | file | source |
|---|---|---|
| `Wrappers`, `Text` | text.dfy | nullable values, results, digits, decimal rendering, `ToLowerInvariant` |
| `Utils` | utils.dfy | FFMpeg-Wrapper/Utils.cs |
| `ErrorCodes` | error_codes.dfy | FFMpeg-Wrapper/ErrorCodes.cs |
| `Ffprobe` | media_analysis.dfy | FFMpeg-Wrapper/ffprobe/MediaAnalysis.cs |
| `Progress` | cli_parser.dfy | FFMpeg-Wrapper/CliParser.cs |
| `Runner` | ffmpeg_args.dfy | FFMpeg-Wrapper/ffmpeg/FFMpegArgs.cs |
| `Tokens` | tokens.dfy | the `-flag value` tokens all builders emit |
| `Codecs` | codecs.dfy | FFMpeg-Wrapper/Codecs/Video/libx264.cs, libsvtav1.cs |
| `Filters` | filters.dfy | FFMpeg-Wrapper/Filters/Video/scale.cs, overlay.cs |
| `FilterGraphs` | filter_arguments.dfy | FFMpeg-Wrapper/ffmpeg/FilterArguments.cs |
| `FileOptions` | file_options.dfy | FFMpeg-Wrapper/ffmpeg/InputFileOptions.cs, OutputFileOptions.cs |
| `Inputs` | inputs.dfy | FFMpeg-Wrapper/ffmpeg/FileInput.cs, AudioNullSrcInput.cs |
| `OutputFiles` | output_file.dfy | FFMpeg-Wrapper/ffmpeg/OutputFile.cs |
| `Streams` | stream_options.dfy | FFMpeg-Wrapper/ffmpeg/StreamOptions.cs |
| `Transcode` | transcode.dfy | FFMpeg-Wrapper/ffmpeg/TranscodeArguments.cs |
| `Concat` | concat.dfy | FFMpeg-Wrapper/ffmpeg/ConcatArguments.cs |
| `Legacy` | legacy.dfy | FFMpeg-Wrapper/TranscodeArguments.cs, FFMpeg-Wrapper/FFMpegArgs.cs |

## Model

| member | source | states |
|---|---|---|
| Utils.GetFFMpegFormat | FFMpeg-Wrapper/Utils.cs:15-18 | the text is 13 characters, 14 with the minus sign of a negative time |
| Utils.FormatLayout | FFMpeg-Wrapper/Utils.cs:15-18 | a leading `-` exactly for a negative time; `:`, `:` and `.` at their places; the four digit fields hold the hours, minutes and seconds of the day and the ten-thousandths of the absolute value |
| Utils.ComponentBounds | FFMpeg-Wrapper/Utils.cs:17 | the printed components fit their fields: hours below 24, minutes and seconds below 60, ten-thousandths below 10000 |
| Utils.ComponentsRecompose | FFMpeg-Wrapper/Utils.cs:17 | the printed components put back together are the time of day of the absolute value, truncated to ten-thousandths of a second |
| Utils.ParseRender | FFMpeg-Wrapper/Utils.cs:15-18 | `TimeSpan.Parse` of any rendered sign and in-range components gives back their signed sum in ticks |
| Utils.ParseFormatRoundTrip | FFMpeg-Wrapper/Utils.cs:15-18 | parsing a formatted time gives its sign times the time of day of its absolute value, truncated to ten-thousandths: whole days are lost |
| Utils.ParseFormatBelowOneDay | FFMpeg-Wrapper/Utils.cs:15-18 | a time in [0, one day) is read back as itself truncated to ten-thousandths of a second |
| Utils.FormatDropsDays | FFMpeg-Wrapper/Utils.cs:17 | a time of a day or more prints exactly like the same time one day less |
| Utils.GetEscapedString | FFMpeg-Wrapper/Utils.cs:20-23 | the escaped text is longer by one character per double quote |
| Utils.EscapeRoundTrip | FFMpeg-Wrapper/Utils.cs:20-23 | unescaping the escaped text gives back the original: escaping loses nothing |
| Utils.EscapeIdentity | FFMpeg-Wrapper/Utils.cs:20-23 | a text without double quotes is returned unchanged |
| Utils.EscapedQuotesArePreceded | FFMpeg-Wrapper/Utils.cs:20-23 | every double quote of the escaped text has a backslash right before it |
| Utils.EscapeAppend | FFMpeg-Wrapper/Utils.cs:20-23 | escaping a concatenation is concatenating the escaped parts |
| Utils.ParseTimeSpan | FFMpeg-Wrapper/ffmpeg/TranscodeArguments.cs:50-60 | `TimeSpan.Parse` of a time this wrapper wrote accepts only `[-]hh:mm:ss.ffff` with in-range fields; what it accepts lies strictly within one day of zero, is a whole number of ten-thousandths, and is negative only after a leading `-` |
| Utils.ParseClockText | FFMpeg-Wrapper/ffmpeg/TranscodeArguments.cs:50-60 | the unsigned `hh:mm:ss.ffff` text is accepted only at 13 characters, and gives a value under one day in whole ten-thousandths |
| Utils.ClockTicks | FFMpeg-Wrapper/ffmpeg/TranscodeArguments.cs:50-60 | in-range hours, minutes, seconds and ten-thousandths make a value under one day in whole ten-thousandths |
| Utils.NegatedThousands | FFMpeg-Wrapper/ffmpeg/TranscodeArguments.cs:50-60 | the negation of a whole number of ten-thousandths is one too, so a leading `-` keeps the parsed value whole |
| ErrorCodes.ToInt32 | FFMpeg-Wrapper/ErrorCodes.cs:56 | the `(int)` cast of a `uint` is a 32-bit value equal to its input or its input minus 2^32, and non-negative exactly below 2^31 |
| ErrorCodes.Negate32 | FFMpeg-Wrapper/ErrorCodes.cs:52 | unary minus stays a 32-bit value and is the true negation for every value except `int.MinValue` |
| ErrorCodes.PackTagBytes | FFMpeg-Wrapper/ErrorCodes.cs:55-57 | each of the four bytes can be read back from the packed tag by shift and mask |
| ErrorCodes.MkTagInjective | FFMpeg-Wrapper/ErrorCodes.cs:55-57 | different byte quadruples give different MKTAG values |
| ErrorCodes.FfErrTagNegative | FFMpeg-Wrapper/ErrorCodes.cs:51-53 | with a non-zero first byte and a last byte below 0x80, FFERRTAG is minus the packed tag, hence negative |
| ErrorCodes.CoreTags | FFMpeg-Wrapper/ErrorCodes.cs:11-17 | the keys from BSF_NOT_FOUND to EOF are the values of their FFERRTAG expressions |
| ErrorCodes.GeneralTags | FFMpeg-Wrapper/ErrorCodes.cs:18-24 | the keys from EXIT to PATCHWELCOME are the values of their FFERRTAG expressions |
| ErrorCodes.StreamTags | FFMpeg-Wrapper/ErrorCodes.cs:25-33 | the keys PROTOCOL_NOT_FOUND, STREAM_NOT_FOUND, BUG2 and UNKNOWN are the values of their FFERRTAG expressions |
| ErrorCodes.HttpTags | FFMpeg-Wrapper/ErrorCodes.cs:38-44 | the seven HTTP keys are the values of their FFERRTAG expressions |
| ErrorCodes.TableKeys | FFMpeg-Wrapper/ErrorCodes.cs:10-45 | the 28 keys of the initialiser, in order |
| ErrorCodes.KeyValuesDistinct | FFMpeg-Wrapper/ErrorCodes.cs:10-45 | those 28 key values are pairwise distinct and all negative |
| ErrorCodes.TableKeysDistinct | FFMpeg-Wrapper/ErrorCodes.cs:10-45 | the table's keys are pairwise distinct and all negative, so no exit code of 0 or above is in it |
| ErrorCodes.AddAllSpec | FFMpeg-Wrapper/ErrorCodes.cs:10-45 | a collection initialiser of `Add` calls succeeds iff no key repeats and none is already present, and then yields the start map extended with every entry |
| ErrorCodes.ToMapKeys | FFMpeg-Wrapper/ErrorCodes.cs:10-45 | the dictionary built from the entries has exactly their keys |
| ErrorCodes.ToMapSize | FFMpeg-Wrapper/ErrorCodes.cs:10-45 | with distinct keys the dictionary has one key per entry |
| ErrorCodes.ToMapLookup | FFMpeg-Wrapper/ErrorCodes.cs:10-45 | with distinct keys, an entry's key maps to that entry's description |
| ErrorCodes.ErrorsBuilt | FFMpeg-Wrapper/ErrorCodes.cs:10-45 | the static initialiser does not throw and builds `Errors` with 28 entries |
| ErrorCodes.ErrorsLookup | FFMpeg-Wrapper/ErrorCodes.cs:10-45 | every key of the table maps to its own description in `Errors` |
| Progress.MatchAt | FFMpeg-Wrapper/CliParser.cs:11 | a match at a position is `time=` followed by a capture of the regex's shape, and it is greedy: a one-digit fraction is taken only when no second digit follows |
| Progress.CaptureAt | FFMpeg-Wrapper/CliParser.cs:11 | ten or eleven characters laid out as `\d\d:\d\d:\d\d.\d\d?` are a capture |
| Progress.FindProgress | FFMpeg-Wrapper/CliParser.cs:11 | whatever the search finds has the capture's shape |
| Progress.FindProgressLeftmost | FFMpeg-Wrapper/CliParser.cs:11 | the search returns the match at the leftmost matching position, and nothing only when no position matches |
| Progress.NoMatchAt | FFMpeg-Wrapper/CliParser.cs:11 | no match starts at a character other than `t` |
| Progress.FindProgressSkip | FFMpeg-Wrapper/CliParser.cs:11 | the search passes over a stretch of positions with no match without changing its answer |
| Progress.ExampleMatch | FFMpeg-Wrapper/CliParser.cs:11 | the regex matches `00:05:00.00` at position 8 of `frame=1 time=00:05:00.00` |
| Progress.ExampleFind | FFMpeg-Wrapper/CliParser.cs:37 | `Match` on that line captures `00:05:00.00` |
| Progress.ParseProgressTime | FFMpeg-Wrapper/CliParser.cs:40 | `TimeSpan.Parse` of a capture succeeds iff it is `hh:mm:ss.f[f]` with hours below 24 and minutes and seconds below 60; or (the regex's `.` matching `:`) `d:hh:mm:ss` with those bounds on hours, minutes and seconds; or (the `.` matching a digit) `hh:mm:` and a digit run read as the seconds, with those bounds; the first and third forms are within one day, the second is `d` whole days and a whole number of seconds, the third a whole number of seconds |
| Progress.RunSeconds | FFMpeg-Wrapper/CliParser.cs:11 | with a digit in the separator's place the capture from position 6 on is all digits, and the seconds are their value |
| Progress.ExampleRunParse | FFMpeg-Wrapper/CliParser.cs:11 | `00:05:0012` is read as 5 minutes and 12 seconds |
| Progress.DayFields | FFMpeg-Wrapper/CliParser.cs:40 | a `d:hh:mm:ss` reading with in-range fields has `d` as its day count and no fraction of a second |
| Progress.ExampleDayParse | FFMpeg-Wrapper/CliParser.cs:11 | `00:05:00:50` is read as 5 hours and 50 seconds |
| Progress.TimeFieldsWithinDay | FFMpeg-Wrapper/CliParser.cs:40 | in-range hours, minutes, seconds and a one- or two-digit fraction add up to less than a day |
| Progress.ExampleParse | FFMpeg-Wrapper/CliParser.cs:40 | `00:05:00.00` parses to five minutes |
| Progress.RoundHalfEvenNearest | FFMpeg-Wrapper/CliParser.cs:43 | `Math.Round` gives a nearest integer and, on a tie, the even one |
| Progress.ExamplePercent | FFMpeg-Wrapper/CliParser.cs:43-44 | five minutes of ten is 50.00 %, whose whole part is 50 |
| Progress.React | FFMpeg-Wrapper/CliParser.cs:34-51 | the handler throws exactly on a `frame` line whose captured time `TimeSpan.Parse` rejects, and then raises nothing and keeps the last percent; a line raises at most a time and a percent event |
| Progress.Run | FFMpeg-Wrapper/CliParser.cs:34-51 | feeding the lines one by one never lowers the last whole percent, and raises at most two events per line |
| Progress.ReactIgnores | FFMpeg-Wrapper/CliParser.cs:34-38 | a line not starting with `frame`, or without a time, raises nothing and changes nothing |
| Progress.ReactFrame | FFMpeg-Wrapper/CliParser.cs:34-51 | a `frame` line with a time raises that time, then a percent event exactly when the percentage's whole part exceeds the last one, which it then becomes |
| Progress.ReactMonotone | FFMpeg-Wrapper/CliParser.cs:44-48 | the last whole percent never decreases |
| Progress.ReactPercentAbove | FFMpeg-Wrapper/CliParser.cs:44-48 | a percent event raised by a line is above the last whole percent and becomes the new one |
| Progress.IncreasingAppend | FFMpeg-Wrapper/CliParser.cs:44-48 | two event runs, each increasing from where the previous one ended, make one increasing run |
| Progress.RunPercentsIncreasing | FFMpeg-Wrapper/CliParser.cs:44-48 | over any sequence of lines the percent events have strictly increasing whole parts above the start, so at most one per whole percent, and the state reached is the last one reported |
| Progress.IncreasingAbove | FFMpeg-Wrapper/CliParser.cs:44-48 | every percent event of an increasing run is above its starting bound |
| Progress.CompletionSilencesLowerPercents | FFMpeg-Wrapper/CliParser.cs:24-28 | after completion has been forced, no line raises a percent event below 101 % |
| Progress.HalfWayExample | FFMpeg-Wrapper/CliParser.cs:34-51 | with ten minutes expected, `frame=1 time=00:05:00.00` raises five minutes, then 50.00 % |
| Progress.CliParser.constructor | FFMpeg-Wrapper/CliParser.cs:14-22 | the total duration is stored and no whole percent has been reported (-1) |
| Progress.CliParser.ForceUpdateComplete | FFMpeg-Wrapper/CliParser.cs:24-28 | raises 100 % and then the total duration, and records 100 as the last whole percent |
| Progress.CliParser.ParseStdOutput | FFMpeg-Wrapper/CliParser.cs:30-32 | standard output changes nothing |
| Progress.CliParser.ParseStdError | FFMpeg-Wrapper/CliParser.cs:34-51 | appends exactly the events of the line's reaction and moves to its last whole percent |
| Runner.CommandLayout | FFMpeg-Wrapper/ffmpeg/FFMpegArgs.cs:119-122 | the command is `-nostdin`, then `-y` iff overwriting (`-n` otherwise), then `-abort_on empty_output`, then the job's arguments unchanged |
| Runner.AnyOpenFailure | FFMpeg-Wrapper/ffmpeg/FFMpegArgs.cs:169-178 | true iff some diagnostic line starts with `Error opening output file` |
| Runner.ErrorDescription | FFMpeg-Wrapper/ffmpeg/FFMpegArgs.cs:155-159 | a code of the table gives its description, any other code "Unknown Error Code" |
| Runner.ParseResult | FFMpeg-Wrapper/ffmpeg/FFMpegArgs.cs:144-183 | an exception wins, then a non-zero exit code, then an unopened output; each gives its message |
| Runner.ParseResultSuccess | FFMpeg-Wrapper/ffmpeg/FFMpegArgs.cs:144-183 | success (null) iff no exception, exit code 0 and no line reports an unopened output |
| Runner.ParseResultKnownCode | FFMpeg-Wrapper/ffmpeg/FFMpegArgs.cs:153-165 | every exit code of the table is reported by its own description, whatever the lines say |
| Runner.ParseResultUnknownCode | FFMpeg-Wrapper/ffmpeg/FFMpegArgs.cs:153-165 | a non-zero exit code outside the table is reported as "Unknown Error Code" |
| Runner.FFMpegArgs.constructor | FFMpeg-Wrapper/ffmpeg/FFMpegArgs.cs:17-18 | a new job has no log path and allows overwriting |
| Runner.FFMpegArgs.SetLogPath | FFMpeg-Wrapper/ffmpeg/FFMpegArgs.cs:57-61 | sets the log path and leaves the overwrite flag |
| Runner.FFMpegArgs.SetOverwrite | FFMpeg-Wrapper/ffmpeg/FFMpegArgs.cs:63-67 | sets the overwrite flag and leaves the log path |
| Runner.FFMpegArgs.CreateCLI | FFMpeg-Wrapper/ffmpeg/FFMpegArgs.cs:114-125 | the command carries the log path and the three global switches ahead of the job's arguments |
| Runner.FFMpegArgs.Run | FFMpeg-Wrapper/ffmpeg/FFMpegArgs.cs:76-93 | the parser, made for the job's process time, has seen every diagnostic line in order and then the forced 100 % and full time; the outcome is the classified result; it reports whether the handler threw, exactly when some line is a `frame` line whose captured time does not parse |
| Runner.RunEventsOrdered | FFMpeg-Wrapper/ffmpeg/FFMpegArgs.cs:76-93 | the percent events of a run rise strictly in whole percent, and it ends with 100 % and the full process time |
| Ffprobe.PadRightZeros | FFMpeg-Wrapper/ffprobe/MediaAnalysis.cs:206-209 | the padded text keeps the original as its prefix and is `width` long unless already longer |
| Ffprobe.PadRightZerosValue | FFMpeg-Wrapper/ffprobe/MediaAnalysis.cs:206-209 | right-padding digits with zeros multiplies their value by ten per added zero |
| Ffprobe.LeadingField | FFMpeg-Wrapper/ffprobe/MediaAnalysis.cs:158 | a found field is a non-empty digit run followed by the terminator, and the text is that field, the terminator and the rest |
| Ffprobe.LeadingFieldAt | FFMpeg-Wrapper/ffprobe/MediaAnalysis.cs:158 | a digit run followed by a non-digit terminator is the leading field |
| Ffprobe.MatchOfGroups | FFMpeg-Wrapper/ffprobe/MediaAnalysis.cs:158 | once the hour, minute and second groups are found, the match is decided by the fraction group |
| Ffprobe.FieldsToTicks | FFMpeg-Wrapper/ffprobe/MediaAnalysis.cs:215 | `new TimeSpan(0, h, m, s, ms)` is a whole number of milliseconds |
| Ffprobe.ParseDuration | FFMpeg-Wrapper/ffprobe/MediaAnalysis.cs:197-224 | zero for null or empty text and for text the regex does not match; otherwise the time of the matched fields, a whole number of milliseconds |
| Ffprobe.ParseDurationPadsFraction | FFMpeg-Wrapper/ffprobe/MediaAnalysis.cs:203-215 | in `hh:mm:ss.ff` the two fraction digits count tens of milliseconds (`00:12:02.11` is 12 min 2 s 110 ms) |
| Ffprobe.FractionTwoDigits | FFMpeg-Wrapper/ffprobe/MediaAnalysis.cs:205-214 | a two-digit fraction group is padded with one zero |
| Ffprobe.MatchOfClock | FFMpeg-Wrapper/ffprobe/MediaAnalysis.cs:158 | a text with two-digit hours, minutes and seconds matches with the text after `.` as the fraction group |
| Ffprobe.TwoDigitGroup | FFMpeg-Wrapper/ffprobe/MediaAnalysis.cs:158 | two digits and a non-digit are a group worth their two-digit value |
| Ffprobe.ParseDurationOfFormat | FFMpeg-Wrapper/ffprobe/MediaAnalysis.cs:197-224 | every non-negative time below one day rendered by `GetFFMpegFormat` is read back truncated to whole milliseconds |
| Ffprobe.MatchRender | FFMpeg-Wrapper/ffprobe/MediaAnalysis.cs:158 | the regex captures the rendered hours, minutes and seconds and the first three of the four fraction digits |
| Ffprobe.RenderFields | FFMpeg-Wrapper/ffprobe/MediaAnalysis.cs:158 | the hour, minute and second groups of a rendered time are its two-digit fields, followed by the four fraction digits |
| Ffprobe.FractionOfRender | FFMpeg-Wrapper/ffprobe/MediaAnalysis.cs:158 | of four rendered fraction digits the `\d{1,3}` group keeps the first three |
| Ffprobe.ParseIntInvariant | FFMpeg-Wrapper/ffprobe/MediaAnalysis.cs:188-189 | a parsed text is not empty |
| Ffprobe.ParseIntOfString | FFMpeg-Wrapper/ffprobe/MediaAnalysis.cs:188-189 | parsing the invariant rendering of an integer gives it back |
| Ffprobe.IndexOf | FFMpeg-Wrapper/ffprobe/MediaAnalysis.cs:171 | the first position of the separator, or none when the text has none |
| Ffprobe.SplitPart | FFMpeg-Wrapper/ffprobe/MediaAnalysis.cs:171 | a part of `Split` holds no separator |
| Ffprobe.ParseRatioInt | FFMpeg-Wrapper/ffprobe/MediaAnalysis.cs:165-173 | null or empty text is (0, 0) |
| Ffprobe.ParseRatioIntRoundTrip | FFMpeg-Wrapper/ffprobe/MediaAnalysis.cs:165-173 | `x<sep>y` is read back as (x, y) for any separator that cannot occur in a number |
| Ffprobe.FormatDisposition | FFMpeg-Wrapper/ffprobe/MediaAnalysis.cs:238-259 | null stays null; otherwise the result is the entry-by-entry conversion, or its exception |
| Ffprobe.DispositionFailurePropagates | FFMpeg-Wrapper/ffprobe/MediaAnalysis.cs:246-256 | the first entry that is neither 0 nor 1 decides the exception, whatever follows |
| Ffprobe.DispositionSpecMeaning | FFMpeg-Wrapper/ffprobe/MediaAnalysis.cs:238-259 | the conversion succeeds iff every value is 0 or 1, and then keeps the keys in order with 1 as true and 0 as false |
| Ffprobe.DispositionSpec | FFMpeg-Wrapper/ffprobe/MediaAnalysis.cs:238-259 | a converted dictionary has one entry per source entry, with the keys in order |
| Ffprobe.FromPart1 | FFMpeg-Wrapper/ffprobe/MediaAnalysis.cs:147 | a found language is in the catalog with that 639-1 code; none is found only when no entry has it |
| Ffprobe.FromPart2 | FFMpeg-Wrapper/ffprobe/MediaAnalysis.cs:150 | the same for the 639-2 code |
| Ffprobe.FromPart3 | FFMpeg-Wrapper/ffprobe/MediaAnalysis.cs:150 | the same for the 639-3 code |
| Ffprobe.ParseLanguage | FFMpeg-Wrapper/ffprobe/MediaAnalysis.cs:142-154 | two letters are looked up as a 639-1 code, three as 639-2 or else 639-3; null and other lengths give null |
| Ffprobe.ParseLanguageFinds | FFMpeg-Wrapper/ffprobe/MediaAnalysis.cs:142-154 | a code of the right length that the catalog knows is recognised |
| Ffprobe.GetBitDepth | FFMpeg-Wrapper/ffprobe/MediaAnalysis.cs:68-72 | the raw-sample depth if it parses, else the sample depth; null exactly when that is zero, so never 0 |
| Ffprobe.OptionalInt | FFMpeg-Wrapper/ffprobe/MediaAnalysis.cs:78-79 | a null or empty numeric field is the default 0; any other text reads as the integer it spells, and throws the FormatException message exactly when it spells none |
| Ffprobe.RatioField | FFMpeg-Wrapper/ffprobe/MediaAnalysis.cs:84-85 | an aspect ratio reads as the pair `ParseRatioInt` gives, and throws the FormatException message exactly when that fails |
| Ffprobe.ParseStream | FFMpeg-Wrapper/ffprobe/MediaAnalysis.cs:74-140 | apart from the tag exception named under "## Left out", the stream reads without an exception iff its bit rate, (video) raw sample bits and both aspect ratios, (audio) sample rate and its disposition all read; the result then carries the kind, the index, every modelled field as read, the language, the converted disposition and (not for subtitles) the bit depth; a malformed number is thrown before a bad disposition value |
| Ffprobe.StreamsOfKind | FFMpeg-Wrapper/ffprobe/MediaAnalysis.cs:18-20 | the selection holds only streams of the input with that codec type |
| Ffprobe.StreamsOfKindCount | FFMpeg-Wrapper/ffprobe/MediaAnalysis.cs:18-20 | every stream of that codec type is kept as often as it occurs, and no other |
| Ffprobe.PartitionSizes | FFMpeg-Wrapper/ffprobe/MediaAnalysis.cs:18-20 | the video, audio and subtitle lists together hold every stream of a known kind exactly once |
| Ffprobe.ParseStreams | FFMpeg-Wrapper/ffprobe/MediaAnalysis.cs:18-20 | the selection parses iff every stream in it parses; the list then holds each stream's parse in order; otherwise the message is that of the first stream that throws, all before it parsing |
| Ffprobe.FirstFailureExtends | FFMpeg-Wrapper/ffprobe/MediaAnalysis.cs:18-20 | the first failure among the streams before the last is the first failure of the whole selection |
| Ffprobe.FirstFailureLast | FFMpeg-Wrapper/ffprobe/MediaAnalysis.cs:18-20 | when every earlier stream parses, a failing last stream is the first failure |
| Ffprobe.StreamsStep | FFMpeg-Wrapper/ffprobe/MediaAnalysis.cs:18-20 | appending the parse of the next stream keeps the list the stream-by-stream parse of the selection |
| Ffprobe.ParsedListKinds | FFMpeg-Wrapper/ffprobe/MediaAnalysis.cs:18-20 | every stream in a parsed list is of the kind it was selected for |
| Ffprobe.FormatBitRate | FFMpeg-Wrapper/ffprobe/MediaAnalysis.cs:32 | a missing container bit rate is 0; a present one reads as its integer, and an empty or malformed one throws the FormatException message |
| Ffprobe.PrimaryStream | FFMpeg-Wrapper/ffprobe/MediaAnalysis.cs:59-61 | none only for an empty list; otherwise a member whose index is the least |
| Ffprobe.PrimaryStreamIsFirstLeast | FFMpeg-Wrapper/ffprobe/MediaAnalysis.cs:59-61 | the stable sort picks the first stream holding the least index |
| Ffprobe.MediaAnalysis.constructor | FFMpeg-Wrapper/ffprobe/MediaAnalysis.cs:14-22 | stores the path, the container times and bit rate, the three stream lists and the diagnostic lines |
| Ffprobe.MediaAnalysis.PrimaryVideoStream | FFMpeg-Wrapper/ffprobe/MediaAnalysis.cs:60 | no primary video stream only when there are no video streams; otherwise one of them with the least index |
| Ffprobe.MediaAnalysis.PrimaryAudioStream | FFMpeg-Wrapper/ffprobe/MediaAnalysis.cs:59 | the same for the audio streams |
| Ffprobe.MediaAnalysis.PrimarySubtitleStream | FFMpeg-Wrapper/ffprobe/MediaAnalysis.cs:61 | the same for the subtitle streams |
| Ffprobe.MediaAnalysis.Duration | FFMpeg-Wrapper/ffprobe/MediaAnalysis.cs:48-53 | the maximum of the container duration and the primary video and audio durations: at least each, and equal to one |
| Ffprobe.Analyze | FFMpeg-Wrapper/ffprobe/MediaAnalysis.cs:18-20 | the three lists parse iff every selected video, audio and subtitle stream parses, and then each is the in-order parse of its selection; otherwise the exception is the first video failure, else the first audio failure, else the first subtitle failure |
| Ffprobe.NewMediaAnalysis | FFMpeg-Wrapper/ffprobe/MediaAnalysis.cs:14-32 | apart from the tag exception named under "## Left out", the object exists iff the container bit rate and every selected stream parse; a bad bit rate throws first, then the first stream failure in `Analyze` order; a new object holds the path, the parsed container times and bit rate, each kind's in-order parse and the diagnostic lines |
| Tokens.Opt | FFMpeg-Wrapper/ffmpeg/InputFileOptions.cs:30 | an optional `-flag value` token is emitted exactly when the value is set |
| Tokens.FlagValueAppend | FFMpeg-Wrapper/ffmpeg/InputFileOptions.cs:29-33 | a flag's first occurrence in two token lists put together is in the first list if there, else in the second |
| Tokens.FlagTokenMatch | FFMpeg-Wrapper/ffmpeg/InputFileOptions.cs:29-33 | a `-f value` token answers for the flag `g` exactly when `g` is `f` |
| Tokens.FlagValueOpt | FFMpeg-Wrapper/ffmpeg/InputFileOptions.cs:30 | an optional token answers only for its own flag, with its value |
| Tokens.FlagValueOpts | FFMpeg-Wrapper/ffmpeg/InputFileOptions.cs:29-33 | with distinct flags, each flag reads back its own value (or none when unset) from the emitted tokens |
| Tokens.FlagValueOptsAbsent | FFMpeg-Wrapper/ffmpeg/InputFileOptions.cs:29-33 | a flag that is not among the options is not found in their tokens |
| Tokens.OptsShape | FFMpeg-Wrapper/ffmpeg/InputFileOptions.cs:29-33 | one token per set value, each starting with `-` |
| Tokens.FlagValueNonOption | FFMpeg-Wrapper/ffmpeg/FileInput.cs:60 | a token not starting with `-` answers for no flag |
| Tokens.Quoted | FFMpeg-Wrapper/ffmpeg/FileInput.cs:60 | the quoted path is the path between two double quotes |
| Codecs.Libx264.constructor | FFMpeg-Wrapper/Codecs/Video/libx264.cs:11 | a new encoder has no CRF |
| Codecs.Libx264.SetCRF | FFMpeg-Wrapper/Codecs/Video/libx264.cs:27-40 | a CRF in 0..51 is stored, any other value resets it to unset |
| Codecs.Libx264.GetArguments | FFMpeg-Wrapper/Codecs/Video/libx264.cs:13-15 | one token when the CRF is set, none otherwise |
| Codecs.X264ArgumentsCarryCrf | FFMpeg-Wrapper/Codecs/Video/libx264.cs:13-15 | the token is `-crf<specifier> <crf>`, read back as the CRF's decimal text, and absent iff the CRF is unset |
| Codecs.LibSvtAv1.constructor | FFMpeg-Wrapper/Codecs/Video/libsvtav1.cs:11-16 | nothing set, film-grain denoise on |
| Codecs.LibSvtAv1.SetCRF | FFMpeg-Wrapper/Codecs/Video/libsvtav1.cs:49-62 | a CRF in 0..63 is stored, any other value resets it; nothing else changes |
| Codecs.LibSvtAv1.SetPreset | FFMpeg-Wrapper/Codecs/Video/libsvtav1.cs:71-84 | a preset in 0..8 is stored, any other value resets it; nothing else changes |
| Codecs.LibSvtAv1.SetTuning | FFMpeg-Wrapper/Codecs/Video/libsvtav1.cs:92-95 | the tuning is stored; nothing else changes |
| Codecs.LibSvtAv1.SetFilmGrain | FFMpeg-Wrapper/Codecs/Video/libsvtav1.cs:113-126 | a film grain in 1..50 is stored, any other value resets it; the denoise argument is not stored and nothing else changes |
| Codecs.LibSvtAv1.SetFastDecode | FFMpeg-Wrapper/Codecs/Video/libsvtav1.cs:135-148 | a speed in 1..3 is stored, any other value resets it; nothing else changes |
| Codecs.LibSvtAv1.GetArguments | FFMpeg-Wrapper/Codecs/Video/libsvtav1.cs:18-36 | the list built step by step is the arguments the setter state describes |
| Codecs.LibSvtAv1.Arguments | FFMpeg-Wrapper/Codecs/Video/libsvtav1.cs:18-36 | at most three tokens (preset, CRF, encoder parameters), each one an option starting with `-` |
| Codecs.SvtEncoderParamsLayout | FFMpeg-Wrapper/Codecs/Video/libsvtav1.cs:23-30 | one entry per set option (two for film grain): tune first as 1 or 0, denoise right after film grain, fast decode last |
| Codecs.SvtArgumentsLayout | FFMpeg-Wrapper/Codecs/Video/libsvtav1.cs:18-36 | preset before CRF; `-svtav1-params` with the `:`-joined entries comes last, exactly when tune, film grain or fast decode is set |
| Codecs.SvtParamsSeparators | FFMpeg-Wrapper/Codecs/Video/libsvtav1.cs:32-35 | the joined entries hold one `:` fewer than there are entries, so the entries can be split back |
| Codecs.CodecName | FFMpeg-Wrapper/Codecs/Codec.cs:10 | `copy`, `libx264` or `libsvtav1` according to the codec |
| Filters.ResolutionHeight | FFMpeg-Wrapper/Filters/Video/scale.cs:44-50 | each resolution's value is one of 4320, 2160, 1080, 720, 480 |
| Filters.ResolutionHeightInjective | FFMpeg-Wrapper/Filters/Video/scale.cs:44-50 | no two resolutions share a value |
| Filters.ScaleToResolution | FFMpeg-Wrapper/Filters/Video/scale.cs:17-20 | width -2 and the resolution's height |
| Filters.ScaleManual | FFMpeg-Wrapper/Filters/Video/scale.cs:27-30 | width and height as given |
| Filters.ScaleArguments | FFMpeg-Wrapper/Filters/Video/scale.cs:32-36 | the text is `scale=` followed by the width, `:` and the height in decimal |
| Filters.ScaleArgumentsReadBack | FFMpeg-Wrapper/Filters/Video/scale.cs:32-36 | the `width:height` part reads back as the stored pair |
| Filters.ScaleArgumentsInjective | FFMpeg-Wrapper/Filters/Video/scale.cs:32-36 | different scales have different texts |
| Filters.ScaleHd1080Text | FFMpeg-Wrapper/Filters/Video/scale.cs:17-36 | the 1080p scale is `scale=-2:1080` |
| Filters.OverlayTextReadBack | FFMpeg-Wrapper/Filters/Video/overlay.cs:12-14 | the overlay text places the overlay the padding in from the right and from the bottom edge, both read back from the text |
| Filters.OverlayYPart | FFMpeg-Wrapper/Filters/Video/overlay.cs:12-14 | the y part of the text holds no `:` and is its prefix followed by the number |
| Filters.Overlay.constructor | FFMpeg-Wrapper/Filters/Video/overlay.cs:10 | the padding is 10 |
| Filters.Overlay.SetCornerPadding | FFMpeg-Wrapper/Filters/Video/overlay.cs:21-24 | any padding is stored as given |
| Filters.DefaultOverlayText | FFMpeg-Wrapper/Filters/Video/overlay.cs:10-14 | a new overlay's text is `overlay=main_w-overlay_w-10:main_h-overlay_h-10` |
| Filters.Overlay.GetArguments | FFMpeg-Wrapper/Filters/Video/overlay.cs:12-14 | whatever the padding held, the text places the overlay that many pixels in on both axes |
| FilterGraphs.NamedPadReadBack | FFMpeg-Wrapper/ffmpeg/FilterArguments.cs:43-46 | a named pad is the escaped name in brackets, and unescaping what is between them gives the name back |
| FilterGraphs.IndexPadReadBack | FFMpeg-Wrapper/ffmpeg/FilterArguments.cs:60-63 | an index pad is `[input:stream]`, and the two indices read back from between the brackets |
| FilterGraphs.NamedPads | FFMpeg-Wrapper/ffmpeg/FilterArguments.cs:48-58 | one pad per name |
| FilterGraphs.IndexPads | FFMpeg-Wrapper/ffmpeg/FilterArguments.cs:65-75 | one pad per (input, stream) pair |
| FilterGraphs.FilterTexts | FFMpeg-Wrapper/ffmpeg/FilterArguments.cs:31 | one text per filter |
| FilterGraphs.FilterTextHasNoComma | FFMpeg-Wrapper/ffmpeg/FilterArguments.cs:25-33 | no filter text holds a comma |
| FilterGraphs.FilterCommaCount | FFMpeg-Wrapper/ffmpeg/FilterArguments.cs:24-33 | n filters are joined with exactly n - 1 commas, so the chain splits back into its filters |
| FilterGraphs.AppendAll | FFMpeg-Wrapper/ffmpeg/FilterArguments.cs:20-23 | appending every part to the builder gives the head followed by all parts in order |
| FilterGraphs.FilterArguments.constructor | FFMpeg-Wrapper/ffmpeg/FilterArguments.cs:13-15 | the three lists start empty |
| FilterGraphs.FilterArguments.AddInput | FFMpeg-Wrapper/ffmpeg/FilterArguments.cs:43-46 | appends one named pad to the inputs; filters and outputs unchanged |
| FilterGraphs.FilterArguments.AddInputs | FFMpeg-Wrapper/ffmpeg/FilterArguments.cs:48-58 | appends the named pads in order; filters and outputs unchanged |
| FilterGraphs.FilterArguments.AddInputIndex | FFMpeg-Wrapper/ffmpeg/FilterArguments.cs:60-63 | appends one index pad to the inputs; filters and outputs unchanged |
| FilterGraphs.FilterArguments.AddInputIndices | FFMpeg-Wrapper/ffmpeg/FilterArguments.cs:65-75 | appends the index pads in order; filters and outputs unchanged |
| FilterGraphs.FilterArguments.AddFilter | FFMpeg-Wrapper/ffmpeg/FilterArguments.cs:77-80 | appends the filter; pads unchanged |
| FilterGraphs.FilterArguments.AddOutput | FFMpeg-Wrapper/ffmpeg/FilterArguments.cs:94-97 | appends one named output pad; inputs and filters unchanged |
| FilterGraphs.FilterArguments.AddOutputs | FFMpeg-Wrapper/ffmpeg/FilterArguments.cs:82-92 | appends the output pads in order; inputs and filters unchanged |
| FilterGraphs.FilterArguments.GetArguments | FFMpeg-Wrapper/ffmpeg/FilterArguments.cs:17-41 | one token: `-filter_complex "`, the input pads, the filter texts joined by commas, the output pads, `"` |
| FileOptions.FormattedParses | FFMpeg-Wrapper/ffmpeg/InputFileOptions.cs:48-75 | the text a setter stores is one `TimeSpan.Parse` accepts |
| FileOptions.InputFileOptions.constructor | FFMpeg-Wrapper/ffmpeg/InputFileOptions.cs:11-14 | nothing set and no file yet |
| FileOptions.InputFileOptions.SetStartTime | FFMpeg-Wrapper/ffmpeg/InputFileOptions.cs:48-51 | stores the formatted seek time; nothing else changes |
| FileOptions.InputFileOptions.SetStopTime | FFMpeg-Wrapper/ffmpeg/InputFileOptions.cs:60-63 | stores the formatted stop time; nothing else changes |
| FileOptions.InputFileOptions.SetDuration | FFMpeg-Wrapper/ffmpeg/InputFileOptions.cs:72-75 | stores the formatted duration; nothing else changes |
| FileOptions.InputFileOptions.DeepCopy | FFMpeg-Wrapper/ffmpeg/InputFileOptions.cs:16-23 | a new object with the same four fields, `Equals` to the original both ways; being fresh, it is the only object a setter called on it changes |
| FileOptions.InputArgumentsReadBack | FFMpeg-Wrapper/ffmpeg/InputFileOptions.cs:29-33 | `-ss`, `-to` and `-t` read back as the seek, stop and duration fields, one token per set field |
| FileOptions.InputFileOptions.GetArguments | FFMpeg-Wrapper/ffmpeg/InputFileOptions.cs:29-33 | one token per set time among seek, stop and duration, each an option starting with `-` |
| FileOptions.InputFileOptions.Equals | FFMpeg-Wrapper/ffmpeg/InputFileOptions.cs:81-93 | true only for another InputFileOptions object, and always for the object itself |
| FileOptions.InputEqualsEquivalence | FFMpeg-Wrapper/ffmpeg/InputFileOptions.cs:81-93 | `Equals` is reflexive, symmetric and transitive |
| FileOptions.InputHashConsistent | FFMpeg-Wrapper/ffmpeg/InputFileOptions.cs:77-93 | equal options have equal hash codes, whatever the combiner |
| FileOptions.OutputFileOptions.constructor | FFMpeg-Wrapper/ffmpeg/OutputFileOptions.cs:9-13 | nothing set; the path as given |
| FileOptions.OutputFileOptions.SetStartTime | FFMpeg-Wrapper/ffmpeg/OutputFileOptions.cs:39-42 | stores the formatted seek time; nothing else changes |
| FileOptions.OutputFileOptions.SetStopTime | FFMpeg-Wrapper/ffmpeg/OutputFileOptions.cs:51-54 | stores the formatted stop time; nothing else changes |
| FileOptions.OutputFileOptions.SetDuration | FFMpeg-Wrapper/ffmpeg/OutputFileOptions.cs:63-66 | stores the formatted duration; nothing else changes |
| FileOptions.OutputFileOptions.SetFileSizeLimit | FFMpeg-Wrapper/ffmpeg/OutputFileOptions.cs:75-78 | stores the size limit; nothing else changes |
| FileOptions.OutputOptionsReadBack | FFMpeg-Wrapper/ffmpeg/OutputFileOptions.cs:19-24 | `-ss`, `-to`, `-t` and `-fs` read back as the stored fields, the limit in decimal, and every token is an option |
| FileOptions.OutputFileOptions.GetArguments | FFMpeg-Wrapper/ffmpeg/OutputFileOptions.cs:19-24 | one token per set value among seek, stop, duration and size limit, each an option starting with `-` |
| FileOptions.OutputFileOptions.Equals | FFMpeg-Wrapper/ffmpeg/OutputFileOptions.cs:84-97 | true only for another OutputFileOptions object, and always for the object itself |
| FileOptions.OutputEqualsMeaning | FFMpeg-Wrapper/ffmpeg/OutputFileOptions.cs:84-97 | `Equals` is reflexive and symmetric, and equal options emit the same tokens |
| Inputs.NewFileInput | FFMpeg-Wrapper/ffmpeg/FileInput.cs:42-45 | no trims; the path and length as given |
| Inputs.FileInputOf | FFMpeg-Wrapper/ffmpeg/FileInput.cs:47-50 | no trims; the analysed path, and the analysis' overall duration as the length, which is at least the container duration |
| Inputs.FileInputArgumentsReadBack | FFMpeg-Wrapper/ffmpeg/FileInput.cs:56-61 | each set trim reads back as its formatted field, the path reads back quoted from the last token `-i "<path>"`, one token per set trim before it |
| Inputs.FileInputArguments | FFMpeg-Wrapper/ffmpeg/FileInput.cs:56-61 | every token is an option and the last one is `-i` with the quoted file path |
| Inputs.FileInputTrimsPrecedeInput | FFMpeg-Wrapper/ffmpeg/FileInput.cs:56-61 | every token before the last is a trim and none is an `-i` token |
| Inputs.TrimTokens | FFMpeg-Wrapper/ffmpeg/FileInput.cs:57-59 | tokens built from trim flags are trim tokens |
| Inputs.FileInputDurationIgnoresTrims | FFMpeg-Wrapper/ffmpeg/FileInput.cs:40 | the reported duration is the file length, whatever the trims |
| Inputs.AudioNullSrcReadBack | FFMpeg-Wrapper/ffmpeg/AudioNullSrcInput.cs:24-28 | three tokens, reading back as format `lavfi`, the formatted duration and source `anullsrc` |
| Inputs.AudioNullSrcArguments | FFMpeg-Wrapper/ffmpeg/AudioNullSrcInput.cs:24-28 | exactly three tokens, each a non-empty option starting with `-` |
| Inputs.InputDuration | FFMpeg-Wrapper/ffmpeg/FileInput.cs:40 | a file input reports its length, a null source its duration |
| Inputs.InputArgumentsEndWithSource | FFMpeg-Wrapper/ffmpeg/AudioNullSrcInput.cs:24-28 | every input's last token is the `-i` token naming its source |
| OutputFiles.ExtensionStart | FFMpeg-Wrapper/ffmpeg/OutputFile.cs:63 | the extension starts at a `.` with no `.` or directory separator after it |
| OutputFiles.GetExtension | FFMpeg-Wrapper/ffmpeg/OutputFile.cs:63 | the extension is empty or a `.` and at least one character that ends the path |
| OutputFiles.ExtensionStartAt | FFMpeg-Wrapper/ffmpeg/OutputFile.cs:63 | a `.` followed only by name characters starts the extension |
| OutputFiles.LowerExtensionIsSuffix | FFMpeg-Wrapper/ffmpeg/OutputFile.cs:63 | the lower-cased path ends in the lower-cased extension |
| OutputFiles.ExtensionOfSuffix | FFMpeg-Wrapper/ffmpeg/OutputFile.cs:63 | a lower-cased path ending in `.` and name characters has that as its lower-cased extension |
| OutputFiles.FastStartOfSuffix | FFMpeg-Wrapper/ffmpeg/OutputFile.cs:63-76 | a path ending, lower-cased, in `.m4v`, `.mov`, `.m4a` or `.mp4` gets `-movflags +faststart` |
| OutputFiles.SuffixOfFastStart | FFMpeg-Wrapper/ffmpeg/OutputFile.cs:63-76 | a path that gets faststart ends, lower-cased, in one of those four |
| OutputFiles.FastStartIffSuffix | FFMpeg-Wrapper/ffmpeg/OutputFile.cs:63-76 | faststart exactly when the path ends, lower-cased, in one of the four extensions |
| OutputFiles.FastStart | FFMpeg-Wrapper/ffmpeg/OutputFile.cs:63-76 | `+faststart` is chosen only for a four-character extension that ends the path |
| OutputFiles.NewOutputFile | FFMpeg-Wrapper/ffmpeg/OutputFile.cs:52-54 | every setting unset; the path as given |
| OutputFiles.OutputFileArgumentsReadBack | FFMpeg-Wrapper/ffmpeg/OutputFile.cs:56-79 | each option reads back as its field (times formatted, size in decimal, title escaped and quoted), present exactly when set, and faststart exactly for the four containers |
| OutputFiles.OutputFileArguments | FFMpeg-Wrapper/ffmpeg/OutputFile.cs:56-79 | the quoted path is the last token and the only one that is not an option, so it is emitted exactly once |
| Streams.Put | FFMpeg-Wrapper/ffmpeg/StreamOptions.cs:74 | a put adds one entry for a new key and none for an existing one |
| Streams.PutLookup | FFMpeg-Wrapper/ffmpeg/StreamOptions.cs:74 | after `d[key] = value` the key holds the value and every other key what it held |
| Streams.PutDistinct | FFMpeg-Wrapper/ffmpeg/StreamOptions.cs:74 | a put keeps one entry per key and adds no key but its own |
| Streams.PutOrder | FFMpeg-Wrapper/ffmpeg/StreamOptions.cs:41-45 | a new key goes at the end and an existing key keeps its place, so enumeration follows first insertion |
| Streams.PutTwice | FFMpeg-Wrapper/ffmpeg/StreamOptions.cs:74 | setting a key twice is setting the last value once |
| Streams.LookupFound | FFMpeg-Wrapper/ffmpeg/StreamOptions.cs:58-61 | a stored value is an entry of the enumeration |
| Streams.GetStreamFlagKey | FFMpeg-Wrapper/ffmpeg/StreamOptions.cs:79-92 | each named flag has its disposition name, and only a value naming no member has none |
| Streams.FlagKeyInjective | FFMpeg-Wrapper/ffmpeg/StreamOptions.cs:79-92 | different flags have different disposition names |
| Streams.FlagKeysArePlain | FFMpeg-Wrapper/ffmpeg/StreamOptions.cs:82-89 | no disposition name is empty or holds `+` or `-` |
| Streams.PlainRun | FFMpeg-Wrapper/ffmpeg/StreamOptions.cs:45 | the run is the longest prefix without a sign |
| Streams.PlainRunOfKey | FFMpeg-Wrapper/ffmpeg/StreamOptions.cs:45 | a plain name followed by a sign or nothing is read as that name |
| Streams.DispositionTextHead | FFMpeg-Wrapper/ffmpeg/StreamOptions.cs:41-45 | a non-empty disposition text starts with a sign |
| Streams.DispositionTextRoundTrip | FFMpeg-Wrapper/ffmpeg/StreamOptions.cs:41-45 | reading the joined `+key`/`-key` text back gives every flag with its value, in order |
| Streams.LanguageCodeChoice | FFMpeg-Wrapper/ffmpeg/StreamOptions.cs:100 | the 639-3 code, else the 639-2, else the 639-1, and "und" only when there is none |
| Streams.LanguageCode | FFMpeg-Wrapper/ffmpeg/StreamOptions.cs:100 | the code is one of the language's own codes or `und`, and the ISO 639-3 code whenever there is one |
| Streams.TitleValueReadBack | FFMpeg-Wrapper/ffmpeg/StreamOptions.cs:105 | the title is the escaped name in quotes; unescaping gives the name back and no inner quote is unescaped |
| Streams.NamedInputMapReadBack | FFMpeg-Wrapper/ffmpeg/StreamOptions.cs:18-20 | the stream name comes back from between `"[` and `]"` |
| Streams.IndexInputMapReadBack | FFMpeg-Wrapper/ffmpeg/StreamOptions.cs:22-24 | the two indices read back from `input:stream` |
| Streams.MetadataTokens | FFMpeg-Wrapper/ffmpeg/StreamOptions.cs:48-62 | one token per metadata entry |
| Streams.DispositionTokens | FFMpeg-Wrapper/ffmpeg/StreamOptions.cs:39-46 | one disposition token exactly when a flag is set |
| Streams.StreamOptions.Named | FFMpeg-Wrapper/ffmpeg/StreamOptions.cs:13-20 | maps the named stream; codec `copy`; no flags, no metadata |
| Streams.StreamOptions.Indexed | FFMpeg-Wrapper/ffmpeg/StreamOptions.cs:13-24 | maps the input stream; codec `copy`; no flags, no metadata |
| Streams.StreamOptions.SetCodec | FFMpeg-Wrapper/ffmpeg/StreamOptions.cs:65-68 | replaces the codec; flags and metadata unchanged |
| Streams.StreamOptions.SetFlag | FFMpeg-Wrapper/ffmpeg/StreamOptions.cs:70-77 | stores the value under the flag's name, and nothing for a flag without one; codec and metadata unchanged |
| Streams.StreamOptions.SetLanguage | FFMpeg-Wrapper/ffmpeg/StreamOptions.cs:99-102 | throws, storing nothing, exactly when the language is null; otherwise stores the language code under `language`; codec and flags unchanged |
| Streams.StoredLanguage | FFMpeg-Wrapper/ffmpeg/StreamOptions.cs:99-102 | a value exactly when the language is not null, and then the language's code |
| Streams.NullLanguageThrows | FFMpeg-Wrapper/ffmpeg/StreamOptions.cs:94-102 | a null language stores nothing (it throws) where the documentation promises `und` |
| Streams.DocumentedLanguage | FFMpeg-Wrapper/ffmpeg/StreamOptions.cs:94-97 | `und` for a null language, and otherwise whatever the code stores |
| Streams.DocumentedLanguageChoice | FFMpeg-Wrapper/ffmpeg/StreamOptions.cs:94-102 | the documented value is `und` for a null language or one with no ISO 639 part, and otherwise its most specific part |
| Streams.StreamOptions.SetName | FFMpeg-Wrapper/ffmpeg/StreamOptions.cs:104-107 | stores the quoted, escaped name under `title`; codec and flags unchanged |
| Streams.RenderStream | FFMpeg-Wrapper/ffmpeg/StreamOptions.cs:31-63 | the number of tokens depends on the codec tokens, whether a flag is set and the metadata, not on the specifier |
| Streams.StreamArgumentsLayout | FFMpeg-Wrapper/ffmpeg/StreamOptions.cs:31-63 | `-map`, `-c<spec>` with the codec name, the codec's tokens, the disposition token iff a flag is set, and one metadata token per entry (`-metadata` or `-metadata:s<spec>`) |
| Streams.StreamOptions.GetArguments | FFMpeg-Wrapper/ffmpeg/StreamOptions.cs:31-63 | one `-map` token first, then the codec name, the codec tokens, a disposition token when there are dispositions and one token per metadata entry |
| Streams.DispositionTokenReadBack | FFMpeg-Wrapper/ffmpeg/StreamOptions.cs:39-46 | the disposition token parses back to exactly the flags set, with their last values, in the order first set |
| Streams.MetadataRendered | FFMpeg-Wrapper/ffmpeg/StreamOptions.cs:48-62 | every stored metadata value is rendered as a `key=value` token |
| Transcode.EqualsMeansSameKey | FFMpeg-Wrapper/ffmpeg/InputFileOptions.cs:81-93 | two options of files are `Equals` exactly when their path and three trims agree |
| Transcode.RequestEntry | FFMpeg-Wrapper/ffmpeg/TranscodeArguments.cs:271-280 | the registered entry carries the file and the caller's trims, or none when no options are given |
| Transcode.RequestEntryRegistered | FFMpeg-Wrapper/ffmpeg/TranscodeArguments.cs:271-280 | the registered copy's trims parse whenever the caller's do |
| Transcode.IndexOfKey | FFMpeg-Wrapper/ffmpeg/TranscodeArguments.cs:282 | `IndexOf` gives the first `Equals` entry, or -1 when there is none |
| Transcode.IndexOfKeyAppend | FFMpeg-Wrapper/ffmpeg/TranscodeArguments.cs:282-287 | a missing entry, once appended, is found at the end |
| Transcode.UniqueKeysPairwise | FFMpeg-Wrapper/ffmpeg/TranscodeArguments.cs:282-287 | a registry built by appending only missing entries holds no two `Equals` entries |
| Transcode.RegisterSpec | FFMpeg-Wrapper/ffmpeg/TranscodeArguments.cs:271-289 | registering keeps the earlier entries, adds at most one, keeps the registry valid, and the returned index is where the entry's key is found |
| Transcode.RegisterIdempotent | FFMpeg-Wrapper/ffmpeg/TranscodeArguments.cs:271-289 | asking again for the same file and trims changes nothing and gives the same index |
| Transcode.StreamBlocksStep | FFMpeg-Wrapper/ffmpeg/TranscodeArguments.cs:136-143 | adding one more stream appends its block to those before |
| Transcode.StreamBlocksLength | FFMpeg-Wrapper/ffmpeg/TranscodeArguments.cs:152-165 | every stream added with the same options appends the same number of tokens |
| Transcode.StreamBlocksAppend | FFMpeg-Wrapper/ffmpeg/TranscodeArguments.cs:136-143 | two groups added one after the other append their blocks, the second numbered after the first |
| Transcode.StreamBlocksLayout | FFMpeg-Wrapper/ffmpeg/TranscodeArguments.cs:152-165 | block k sits after k blocks: the `-map` of stream k, then the options' tokens for output stream first + k |
| Transcode.EntryArgumentsOf | FFMpeg-Wrapper/ffmpeg/TranscodeArguments.cs:278 | the registered copy renders the trims of the options it was copied from |
| Transcode.InputSourcesAppend | FFMpeg-Wrapper/ffmpeg/TranscodeArguments.cs:106-107 | the sources named in two token lists put together are those of the first, then those of the second |
| Transcode.InputSourcesOfTrims | FFMpeg-Wrapper/ffmpeg/InputFileOptions.cs:29-33 | trim tokens name no source |
| Transcode.NoSources | FFMpeg-Wrapper/ffmpeg/TranscodeArguments.cs:106-107 | tokens without `-i` name no source |
| Transcode.InputSourcesInRegistryOrder | FFMpeg-Wrapper/ffmpeg/TranscodeArguments.cs:106-107 | the k-th `-i` token names the file registered at index k, so the indices handed out are ffmpeg's input numbers |
| Transcode.LongestInputIsMaximum | FFMpeg-Wrapper/ffmpeg/TranscodeArguments.cs:67-90 | the running maximum is at least zero and every input length, and equals one of them unless it is zero |
| Transcode.ProcessTimeBounds | FFMpeg-Wrapper/ffmpeg/TranscodeArguments.cs:46-101 | an output duration wins; without duration or stop time the result is the longest input less the output seek, but never below zero |
| Transcode.ProcessTimeOfSetDuration | FFMpeg-Wrapper/ffmpeg/TranscodeArguments.cs:46-50 | an output duration d under a day set by `SetDuration` comes back as d truncated to ten-thousandths |
| Transcode.AddStreamsSpecStep | FFMpeg-Wrapper/ffmpeg/TranscodeArguments.cs:136-143 | adding the first i + 1 streams is adding the first i, then stream i |
| Transcode.AddStreamsState | FFMpeg-Wrapper/ffmpeg/TranscodeArguments.cs:136-165 | adding streams registers each stream's own source file in order, appends one block per stream and appends exactly the streams, without their sources, to the output streams in order |
| Transcode.RegisterAllSpec | FFMpeg-Wrapper/ffmpeg/TranscodeArguments.cs:152-157 | registering the sources of streams keeps the earlier entries in place, adds at most one entry per stream and only entries of the streams' own sources, finds every stream's source afterwards, and keeps a valid registry valid when the trims parse |
| Transcode.RegisterAllPrefix | FFMpeg-Wrapper/ffmpeg/TranscodeArguments.cs:136-143 | the registry after the first j streams stays, in place, at the start of the registry after all of them |
| Transcode.AddStreamsMapsOwnSource | FFMpeg-Wrapper/ffmpeg/TranscodeArguments.cs:152-160 | stream k is mapped from the input registered for its own source file with the caller's trims, whose `-i` token names that file |
| Transcode.SourcedBlocksLength | FFMpeg-Wrapper/ffmpeg/TranscodeArguments.cs:158-162 | every stream added with the same options appends the same number of tokens, whatever its source |
| Transcode.SourcedBlocksPrefix | FFMpeg-Wrapper/ffmpeg/TranscodeArguments.cs:136-143 | the tokens appended for the first j streams start the tokens appended for all of them |
| Transcode.SourcedBlocksLayout | FFMpeg-Wrapper/ffmpeg/TranscodeArguments.cs:136-165 | block k sits after k blocks: the `-map` of stream k from its own source's index, then the options' tokens for output stream first + k |
| Transcode.AddStreamsKeepsRegistryValid | FFMpeg-Wrapper/ffmpeg/TranscodeArguments.cs:136-165 | adding streams keeps a valid registry valid when the trims parse |
| Transcode.OneFileRegistersOnce | FFMpeg-Wrapper/ffmpeg/TranscodeArguments.cs:123-126 | the streams of one analysis register it at most once |
| Transcode.OneFileMapIndex | FFMpeg-Wrapper/ffmpeg/TranscodeArguments.cs:123-126 | every stream of one analysis is mapped from the index the file had, or got, on the first of them |
| Transcode.OneFileBlocks | FFMpeg-Wrapper/ffmpeg/TranscodeArguments.cs:123-126 | the tokens appended for one analysis's streams all map from that one index |
| Transcode.AddStreamsRegistersOnce | FFMpeg-Wrapper/ffmpeg/TranscodeArguments.cs:123-126 | adding the streams of one analysis registers it at most once and appends the streams to the output streams in order |
| Transcode.AddStreamsSourceIndex | FFMpeg-Wrapper/ffmpeg/TranscodeArguments.cs:123-126 | the analysis keeps the index it was first given, and the output stream count grows by the number of streams |
| Transcode.AddStreamsArguments | FFMpeg-Wrapper/ffmpeg/TranscodeArguments.cs:123-126 | every stream of one analysis is mapped from the same input index and numbered after the streams before it |
| Transcode.TranscodeArguments.constructor | FFMpeg-Wrapper/ffmpeg/TranscodeArguments.cs:26-44 | no inputs, options or streams; `-movflags +faststart` exactly for the four MP4-family extensions |
| Transcode.TranscodeArguments.IndexOf | FFMpeg-Wrapper/ffmpeg/TranscodeArguments.cs:282 | the first registered input that `Equals` the item, or -1 |
| Transcode.TranscodeArguments.GetInputIndex | FFMpeg-Wrapper/ffmpeg/TranscodeArguments.cs:271-289 | registers a copy unless an equal entry is there and returns its index; the caller's options are left as they were; the registry stays valid (trims parse, no two entries `Equals`) |
| Transcode.TranscodeArguments.AddStream | FFMpeg-Wrapper/ffmpeg/TranscodeArguments.cs:152-165 | registers the stream's own source file with the caller's trims, appends `-map index:stream` and the options' tokens for the next output stream, and records the stream; the registry stays valid |
| Transcode.TranscodeArguments.AppendStream | FFMpeg-Wrapper/ffmpeg/TranscodeArguments.cs:158-162 | leaves the registry alone, appends `-map index:stream` and the options' tokens for the next output stream, and records the stream |
| Transcode.TranscodeArguments.AddStreams | FFMpeg-Wrapper/ffmpeg/TranscodeArguments.cs:136-143 | one `AddStream` per stream, in order, each registering its own source; the registry stays valid |
| Transcode.TranscodeArguments.AddFileStreams | FFMpeg-Wrapper/ffmpeg/TranscodeArguments.cs:123-126 | the streams of one kind of an analysis: the file is registered at most once, the streams are appended to the output streams in order, and every one is mapped from the file's index |
| Transcode.TranscodeArguments.DetermineProcessTime | FFMpeg-Wrapper/ffmpeg/TranscodeArguments.cs:46-101 | the loop computes the process time the specification function defines |
| Transcode.TranscodeArgumentsLayout | FFMpeg-Wrapper/ffmpeg/TranscodeArguments.cs:103-113 | the inputs come right after the global options in registry order, and the output options, all starting with `-`, are followed by the quoted output path last |
| Transcode.TranscodeArguments.GetArguments | FFMpeg-Wrapper/ffmpeg/TranscodeArguments.cs:103-113 | as many tokens as the global options, input tokens, stream arguments and output options together, plus one; the global options come first and the quoted output path last |
| Transcode.LongestInput | FFMpeg-Wrapper/ffmpeg/TranscodeArguments.cs:67-90 | never negative, and at least the length of the last input considered |
| Transcode.ProcessTime | FFMpeg-Wrapper/ffmpeg/TranscodeArguments.cs:46-101 | without an output duration or stop time the result is never negative; with no output seek either it is the longest input |
| Transcode.LongestInputAbove | FFMpeg-Wrapper/ffmpeg/TranscodeArguments.cs:67-90 | the running maximum is at least the length of every input |
| Transcode.LongestInputAt | FFMpeg-Wrapper/ffmpeg/TranscodeArguments.cs:67-90 | the running maximum is at least the length of input i, for each registered i |
| Transcode.LongestInputAttained | FFMpeg-Wrapper/ffmpeg/TranscodeArguments.cs:67-90 | the running maximum is zero or the length of some input |
| Transcode.AddStreamsInputs | FFMpeg-Wrapper/ffmpeg/TranscodeArguments.cs:136-157 | after adding streams, the registry is the one obtained by asking for each stream's source in order |
| Transcode.AddStreamsOutputs | FFMpeg-Wrapper/ffmpeg/TranscodeArguments.cs:136-162 | adding streams appends exactly those streams, in order, to the output streams |
| Transcode.AddStreamsBlocks | FFMpeg-Wrapper/ffmpeg/TranscodeArguments.cs:136-161 | adding streams appends to the arguments, after those already there, one block per stream |
| Transcode.RegisterAllGrows | FFMpeg-Wrapper/ffmpeg/TranscodeArguments.cs:152-157 | asking for the sources of streams keeps the earlier entries in place and adds at most one entry per stream |
| Transcode.RegisterAllOnlySources | FFMpeg-Wrapper/ffmpeg/TranscodeArguments.cs:152-157 | every entry added is the entry of some stream's own source with the caller's trims |
| Transcode.RegisterAllValid | FFMpeg-Wrapper/ffmpeg/TranscodeArguments.cs:152-157 | asking for the sources of streams keeps a valid registry valid when the trims parse |
| Transcode.SourcedBlocksStep | FFMpeg-Wrapper/ffmpeg/TranscodeArguments.cs:136-143 | the blocks of the first k + 1 streams are those of the first k, then the block of stream k |
| Transcode.FromFilePrefix | FFMpeg-Wrapper/ffmpeg/TranscodeArguments.cs:123-126 | the first k streams of one analysis, with their source, are the streams of the analysis's first k |
| Concat.TimeLine | FFMpeg-Wrapper/ffmpeg/ConcatArguments.cs:74-76 | a time line is written exactly when the time is given |
| Concat.ManifestAppend | FFMpeg-Wrapper/ffmpeg/ConcatArguments.cs:68-84 | later calls only append to the manifest |
| Concat.TotalDurationAppend | FFMpeg-Wrapper/ffmpeg/ConcatArguments.cs:69 | the duration of two call sequences is the sum of theirs |
| Concat.ManifestFilesAppend | FFMpeg-Wrapper/ffmpeg/ConcatArguments.cs:52 | the files named by two manifests put together are those of the first, then those of the second |
| Concat.FileLineReadBack | FFMpeg-Wrapper/ffmpeg/ConcatArguments.cs:71-72 | the file line names the path it was written for, once its `\'` escapes are undone |
| Concat.NoFileLine | FFMpeg-Wrapper/ffmpeg/ConcatArguments.cs:52 | a line not starting with `f` names no file |
| Concat.OtherLinesNameNoFile | FFMpeg-Wrapper/ffmpeg/ConcatArguments.cs:74-82 | duration, inpoint, outpoint and chapter lines name no file |
| Concat.ManifestFilesAreAddedFiles | FFMpeg-Wrapper/ffmpeg/ConcatArguments.cs:68-84 | with the `\'` escapes undone, the manifest names exactly the added files, in the order added, whatever chapters and trims lie between |
| Concat.FileEntryTimesReadBack | FFMpeg-Wrapper/ffmpeg/ConcatArguments.cs:71-76 | the file line comes first, and each time keyword reads back as the formatted time given for it, only when given |
| Concat.FileEntryTimeValue | FFMpeg-Wrapper/ffmpeg/ConcatArguments.cs:74-76 | the value a file's lines give for each time keyword |
| Concat.FileLineHasNoTime | FFMpeg-Wrapper/ffmpeg/ConcatArguments.cs:72 | a file line answers for no time keyword |
| Concat.TimeLineValue | FFMpeg-Wrapper/ffmpeg/ConcatArguments.cs:74-76 | a time line answers for its own keyword only |
| Concat.ConcatArguments.constructor | FFMpeg-Wrapper/ffmpeg/ConcatArguments.cs:20-41 | empty manifest, zero duration, no streams; `-movflags +faststart` exactly for the four MP4-family extensions |
| Concat.ConcatArguments.DetermineProcessTime | FFMpeg-Wrapper/ffmpeg/ConcatArguments.cs:43-45 | the sum of the added files' durations |
| Concat.ConcatArguments.AddFile | FFMpeg-Wrapper/ffmpeg/ConcatArguments.cs:68-79 | adds the file's duration and appends its file line and given time lines; nothing else changes |
| Concat.ConcatArguments.AddChapter | FFMpeg-Wrapper/ffmpeg/ConcatArguments.cs:81-84 | appends one chapter line; nothing else changes |
| Concat.ConcatArguments.AddStream | FFMpeg-Wrapper/ffmpeg/ConcatArguments.cs:127-136 | appends `-map 0:index` and the options' tokens for the next output stream, and counts it |
| Concat.ConcatArguments.AddStreams | FFMpeg-Wrapper/ffmpeg/ConcatArguments.cs:112-118 | one `AddStream` per stream, in order, numbered on from the streams already mapped |
| Concat.ConcatArgumentsLayout | FFMpeg-Wrapper/ffmpeg/ConcatArguments.cs:51-66 | format `concat`, `-safe 0` and the manifest as the only named input, then the collected arguments, the output options and the quoted output path last |
| Concat.ConcatArguments.GetArguments | FFMpeg-Wrapper/ffmpeg/ConcatArguments.cs:51-66 | `-f concat`, `-safe 0` and `-i` with the quoted manifest path first, the quoted output path last, and exactly the stream arguments and output options between in number |
| Concat.ListFilePath | FFMpeg-Wrapper/ffmpeg/ConcatArguments.cs:52-56 | the temporary folder, a `/` unless the folder is empty or already ends in one, then `FileList.txt` |
| Concat.FileLine | FFMpeg-Wrapper/ffmpeg/ConcatArguments.cs:71-72 | a `file '...'` line whose quoted part is the path with every `'` escaped |
| Concat.ChapterLine | FFMpeg-Wrapper/ffmpeg/ConcatArguments.cs:82 | the line starts with `chapter `, the chapter id and a space |
| Concat.ConcatStreamMaps | FFMpeg-Wrapper/ffmpeg/ConcatArguments.cs:112-136 | stream k of a group maps input 0 with its own index and gets output stream first + k, after k blocks of equal length |
| Concat.InputZeroMap | FFMpeg-Wrapper/ffmpeg/ConcatArguments.cs:131 | the map token of input 0 is `-map 0:<index>` |
| Legacy.LanguageTokenReadBack | FFMpeg-Wrapper/TranscodeArguments.cs:202-212 | the language token carries `language=<code>` under `-metadata` without a specifier and under `-metadata:s<spec>` with one |
| Legacy.LanguageToken | FFMpeg-Wrapper/TranscodeArguments.cs:202-212 | a `-metadata` option ending in ` language=` and the chosen language code |
| Legacy.StreamOptions.constructor | FFMpeg-Wrapper/TranscodeArguments.cs:184-186 | the copy codec and no language |
| Legacy.StreamOptions.SetCodec | FFMpeg-Wrapper/TranscodeArguments.cs:215-218 | changes only the codec |
| Legacy.StreamOptions.SetLanguage | FFMpeg-Wrapper/TranscodeArguments.cs:220-223 | changes only the language, which may be cleared |
| Legacy.StreamOptions.GetArguments | FFMpeg-Wrapper/TranscodeArguments.cs:195-213 | `-c<spec>` with the codec name, the codec's tokens, and the language token last exactly when a language is set |
| Legacy.IndexOf | FFMpeg-Wrapper/TranscodeArguments.cs:170 | the first position holding the same object, and -1 exactly when it is absent |
| Legacy.RegisterSpec | FFMpeg-Wrapper/TranscodeArguments.cs:169-177 | the registry keeps its files in place, gains the file at the end exactly when it is new, stays free of repeats, and the index returned holds the file |
| Legacy.RegisterIdempotent | FFMpeg-Wrapper/TranscodeArguments.cs:169-177 | asking again for a registered file changes nothing and gives the same index |
| Legacy.Rendered | FFMpeg-Wrapper/TranscodeArguments.cs:70-73 | stream k of a group gets the options' tokens for output stream first + k |
| Ffprobe.FromFile | FFMpeg-Wrapper/ffprobe/MediaStream.cs:10 | the streams of an analysis, each with the analysis as its source |
| Ffprobe.StreamsOf | FFMpeg-Wrapper/ffmpeg/TranscodeArguments.cs:162 | the streams without their sources, one for one and in order |
| Ffprobe.StreamsOfFromFile | FFMpeg-Wrapper/ffprobe/MediaStream.cs:10 | dropping the source from the streams of one analysis gives the streams back |
| Ffprobe.StreamsOfStep | FFMpeg-Wrapper/TranscodeArguments.cs:54-60 | dropping the sources of one more stream appends that stream to those before |
| Legacy.RegisterAllSpec | FFMpeg-Wrapper/TranscodeArguments.cs:54-60 | registering a group keeps the registry free of repeats and in place, adds at most one file per stream, and holds every stream's source |
| Legacy.OneSourceOneIndex | FFMpeg-Wrapper/TranscodeArguments.cs:42-60 | the streams of one file all map from one input: the file's index before the first was added |
| Legacy.InputTokens | FFMpeg-Wrapper/TranscodeArguments.cs:29 | one `-i "path"` token per registered input, in registry order |
| Legacy.TranscodeArguments.constructor | FFMpeg-Wrapper/TranscodeArguments.cs:13-25 | nothing added; the output path as given |
| Legacy.TranscodeArguments.GetInputIndex | FFMpeg-Wrapper/TranscodeArguments.cs:169-177 | appends the file when it is new and returns its position; nothing else changes; every input stays registered once |
| Legacy.TranscodeArguments.AddStream | FFMpeg-Wrapper/TranscodeArguments.cs:68-77 | registers the source, appends `-map index:stream` and the options' tokens (none without options) for the next output stream, and records the stream; every input stays registered once |
| Legacy.TranscodeArguments.AppendStream | FFMpeg-Wrapper/TranscodeArguments.cs:69-74 | the same with the option tokens given; every input stays registered once |
| Legacy.TranscodeArguments.AddStreams | FFMpeg-Wrapper/TranscodeArguments.cs:54-60 | one `AddStream` per stream, in order: the registry is each stream's source asked for in turn, one block per stream is appended, and the output streams gain exactly these streams in order; every input stays registered once; the global options are untouched |
| Legacy.TranscodeArguments.AddFileStreams | FFMpeg-Wrapper/TranscodeArguments.cs:42-44 | every stream of the kind, in order, from the analysis: the output streams gain exactly those streams in order, and the registry and arguments are as `AddStreams` gives them; every input stays registered once; the global options are untouched |
| Legacy.BlocksStep | FFMpeg-Wrapper/TranscodeArguments.cs:54-60 | adding stream i extends the registry and the blocks of the streams before it |
| Legacy.AppendBlock | FFMpeg-Wrapper/TranscodeArguments.cs:54-60 | appending the tokens of stream i gives the arguments of one stream more |
| Legacy.AddStreamsKeepsValid | FFMpeg-Wrapper/TranscodeArguments.cs:54-60 | adding streams keeps every input registered once |
| Legacy.GetArgumentsLayout | FFMpeg-Wrapper/TranscodeArguments.cs:27-32 | the global options, one `-i "path"` per input in registry order, the arguments, and the quoted output path last |
| Legacy.TranscodeArguments.GetArguments | FFMpeg-Wrapper/TranscodeArguments.cs:27-32 | as many tokens as the global options, one per input, the stream arguments and one more; the global options come first and the quoted output path last |
| Legacy.FileBlocksMapOneInput | FFMpeg-Wrapper/TranscodeArguments.cs:42-77 | every map token of one file's streams reads from that file's index, and output ordinals run on |
| Legacy.ParseResult | FFMpeg-Wrapper/FFMpegArgs.cs:96-126 | true exactly when nothing was thrown, the exit code is 0 and no line reports an unopened output |
| Legacy.ParseResultAgrees | FFMpeg-Wrapper/FFMpegArgs.cs:96-126 | the root check succeeds exactly when the newer one reports no error |

## Left out

- Process execution: `CLI.Run`, `RunAsync` and everything asynchronous are left out. The `CliResult` and the diagnostic lines are parameters of `Runner.FFMpegArgs.Run`.
- Runner.FFMpegArgs.Run: assumes ffmpeg delivers every diagnostic line to the parser before the process returns. The event-handler wiring of `CreateParser` becomes a loop over those lines.
- Runner.FFMpegArgs.Run: an exception thrown by the `ParseStdError` handler is raised inside the process wrapper's output event, which is not part of this model. The model does not stop there: it reports that some handler call threw and goes on with the next line.
- Progress events: the `OnTimeProgress` / `OnPercentProgress` subscribers and the `NotifyOnProgress` callbacks are not modelled. Each event is appended to the parser's `Events` sequence instead.
- Floating point, in `CliParser`: the percentage is exact, in integer hundredths, with an explicit round-half-even step. A total duration of zero gives no percent event, where .NET would divide to NaN or infinity.
- Floating point, in `MediaAnalysis`: `ParseRatioDouble`, `DivideRatio`, `ParseRotation`, `ParseDoubleInvariant` and the frame rates are not modelled.
- Ffprobe.ParseStream: does not model the `ArgumentException` that `ToCaseInsensitive` (FFMpeg-Wrapper/ffprobe/MediaAnalysis.cs:161) throws when a stream's tags hold two keys differing only in case (lines 101, 123 and 138), because tags are not part of the model; that exception is missing from its failure condition. It does not model the average and real frame rates, the rotation and the frame count (`ParseUIntInvariant`) of a video stream, so the exceptions those fields can throw are missing from its failure condition. The plain copied fields (codec names, sizes, colour fields, channels, tags) are not kept. The bit rate is an unbounded integer rather than a `long`. A ratio whose text has no separator, which throws `IndexOutOfRangeException` in the source, is reported with the `FormatException` message.
- Ffprobe.NewMediaAnalysis: does not model the `ArgumentException` that `ToCaseInsensitive` throws on format tags (FFMpeg-Wrapper/ffprobe/MediaAnalysis.cs:33) or stream tags holding two keys differing only in case, because tags are not part of the model; that exception is missing from its failure condition, which is also `Ffprobe.ParseStream`'s.
- Ffprobe.FormatBitRate: `long.Parse` is modelled by the reduced `ParseIntInvariant` (sign and ASCII digits), so surrounding whitespace, which `long.Parse` accepts, is a failure here; `long` overflow is not modelled.
- `CliParser.DurationRegex` is declared but never used, so input-header parsing is not modelled.
- `CliParser.ParseStdOutput` has an empty body; its model changes nothing.
- Integer width: parsed integers and TimeSpan arithmetic are unbounded. Int32 overflow in `int.Parse` and TimeSpan overflow are not modelled.
- Ffprobe.ParseIntInvariant: reduced to an optional sign followed by ASCII decimal digits. Invariant-culture `NumberStyles` leniency is not accepted: surrounding whitespace, thousands separators and parentheses. Its own ensures only says a parsed text is non-empty. `Ffprobe.ParseIntOfString` is the round trip that pins it down.
- Ffprobe.ParseRatioInt: its own ensures covers only the null and empty cases. `Ffprobe.ParseRatioIntRoundTrip` states the general case.
- Regular expressions: `\d` matches ASCII digits only, not every Unicode decimal digit as in .NET.
- Progress.ParseProgressTime: `TimeSpan.Parse` uses the current culture; only the invariant culture's `.` and `:` separators and a digit (which joins the seconds) are modelled in the separator's place, so a culture whose decimal separator is another character (such as `,`) is a failure here, as is any other character there.
- Exceptions: a thrown exception is a `None`, a `Failure`, or the `thrown` result of `Progress.CliParser.ParseStdError`. The exception's type is not kept.
- `MediaAnalysis`: chapters, format tags, the format's other fields and `ToCaseInsensitive` are not modelled.
- `MediaStream` does not store its `SourceFile` back-reference. `Ffprobe.SourcedStream` pairs a stream with its source analysis instead, and the `Add*Stream` methods take such pairs, so streams from different files can be mixed in one call.
- Iso639: the `Language` catalog is a parameter, an ordered sequence of languages. `FromPart1/2/3` return the first match.
- `InputFileOptions.GetHashCode`: `HashCode.Combine` is a parameter function.
- `OutputFileOptions.GetHashCode` is reference-based and inconsistent with `Equals`, so no hash property is stated for that class.
- File extensions: `Path.GetExtension` is modelled as the text from the last '.' after the last '/', for a platform whose directory separator is `/` (the same platform `Concat.ListFilePath` models). On Windows it also stops at `\` and at the volume separator `:`. `ToLower` is modelled as ASCII `ToLowerInvariant`.
- Concat.ManifestFiles: undoes the wrapper's own `\'` escaping. ffmpeg's concat demuxer reads text inside single quotes literally, so it would not read `\'` there as a quote; how ffmpeg reads the manifest is not part of this model.
- Concat.ListFilePath: `Path.Combine` is modelled for a platform whose directory separator is `/`, the same platform `OutputFiles.GetExtension` models. On Windows it inserts `\` and also accepts a trailing `\`.
- `ConcatArguments` file system: `Directory.CreateTempSubdirectory` is left out (the temporary folder is a constructor parameter). `File.WriteAllLines` of the manifest is left out (the manifest is the `FileData` sequence).
- Temporary-folder cleanup (`FolderToClean`, `Directory.Delete`) is not modelled.
- `Core.GetCLI` and the choice of executable are not part of this model.
- Console colour logging in the codec setters and in `ParseResult` is side output and is not modelled.
- The root-namespace `FFMpegArgs.Run` and `CreateParser` are not modelled: `CreateParser` calls a parameterless `CliParser` constructor that does not exist. Its `CreateCLI` and setters are the same as in the ffmpeg namespace, which `Runner.FFMpegArgs` models.
- `new VideoStreamOptions()`, `new AudioStreamOptions()` and `new SubtitleStreamOptions()`, the defaults for null stream options in the ffmpeg namespace (FFMpeg-Wrapper/ffmpeg/TranscodeArguments.cs:155, :207 and :259, FFMpeg-Wrapper/ffmpeg/ConcatArguments.cs:129, :184 and :239), do not compile: every constructor of the three classes takes a stream name or an input and stream index, so `Transcode` and `Concat` `Add*Stream` take non-null stream options.
- The `Codec` interface declares `GetArguments(string)`, but `libsvtav1` and `CopyCodec` implement only a form with no arguments. They are called without a stream specifier.
- `Filter.GetArguments` is declared to return a list, but `scale` and `overlay` return one string. The filter graph uses that string.
- `TimeSpan.Parse` in `DetermineProcessTime` is modelled only for the `[-]hh:mm:ss.ffff` texts that `GetFFMpegFormat` writes. The option setters only ever store such texts.
- `SetFilmGrain` ignores its `filmGrainDenoise` argument, as the source does, so `FilmGrainDenoise` stays true.
- `ErrorCodes`: the table is kept as a sequence of (key, description) pairs, turned into a map. Each key's construction by `FFERRTAG` is stated by lemma.
- Legacy.TranscodeArguments.AddStream: computes the option tokens before it registers the input and appends the map token. The tokens are the same as in the source's order, because the output ordinal only changes afterwards.
- Streams.StreamOptions.SetLanguage: follows the code, which throws on a null language; the `und` its documentation comment promises for null is `Streams.DocumentedLanguage` (see Findings).
- Transcode.TranscodeArguments.AddFileStreams: stands for the three overloads taking an analysis (FFMpeg-Wrapper/ffmpeg/TranscodeArguments.cs:123-126, 175-178 and 227-230), with the stream kind as a parameter.
- The `Test` example program is not modelled: it calls APIs that the library does not define.
- `FFMpeg.cs` (executable selection and fixed snapshot lists) and `FFProbe.cs` (launching ffprobe and deserialising JSON) are not modelled. The ffprobe report is a parameter.

## Findings

| source | as written | input that shows it | evidently intended | confidence | as-written member | corrected member |
|---|---|---|---|---|---|---|
| FFMpeg-Wrapper/ffmpeg/StreamOptions.cs:94-102 | `SetLanguage(Language? language)` reads `language.Part3` with no null check, so a null language throws `NullReferenceException` | `SetLanguage(null)`, for instance with the `Language` of a probed stream whose tag is missing or unknown, which `ParseLanguage` returns as null (FFMpeg-Wrapper/ffprobe/MediaAnalysis.cs:142-154) | the documentation comment: passing null lists the language as `und` | high; not executed | `Streams.StoredLanguage`, shown by `Streams.NullLanguageThrows` | `Streams.DocumentedLanguage`, with `Streams.DocumentedLanguageChoice` |
