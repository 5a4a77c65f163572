# Video agent pipeline: a Dafny model of its core

The video agent turns a request ("make a short video of the key steps in
this tutorial") into a chain of stages:
- a manager agent downloads the video and extracts its audio;
- `process_audio` transcribes the audio, picks out its key points and saves
  them as a JSON file beside it;
- an understanding agent cuts frames out of the video at the key moments;
- an editing agent assembles those frames into a short slideshow video.

This project models the deterministic code that sits between the agents.
It covers:
- the transcript helpers and the decision tree of `process_request` in
  `main.py`;
- the ffmpeg/ffprobe tools of `components/video_process_tool.py`;
- the yt-dlp download template of `templates/video_downloader.py`.

Agents, ffmpeg, ffprobe, yt-dlp, the transcription service, the file system
and Python's `hash()` are oracles. They are fields of an environment value
(`Pipeline.Run`, `FrameTools.Tools`, `Downloader.Env`) or plain parameters
(whether a path exists, the time of saving).

The modules are:
- `Common`: options, results, and the error kinds of Python exceptions. It
  also holds the generic shapes of the source's loops:
  - filtering with a flag per element;
  - mapping that stops at the first raise;
  - running commands in order until one exits non-zero.
- `PyText`: the parts of Python's `str` and `int` that the core relies on:
  - `str(int)`, `int(str)`, `f"{n:02d}"`;
  - `strip`, `split`, `join`, `lower`, `in`;
  - ordering of strings and `sorted`.
- `PosixPath`: `os.path.join`, `dirname`, `basename` and `splitext`, as
  `posixpath` defines them.
- `Transcript`: `format_timestamp`, `transcribe_audio`,
  `extract_key_points`, `save_transcript_to_json` and `process_audio`.
- `Pipeline`: `process_request` from the manager's output on.
- `FrameTools`: `extract_video_frames`, `read_transcript_json`,
  `create_video_from_frames` and `extract_audio_from_video`.
- `Downloader`: `download_video`.

Each loop of the source is a method. Each method is proved equal to a
specification function, and lemmas then state what that function means:
- order and membership of the kept lines;
- round trips of the formatted and escaped texts;
- the shape of the concat script;
- which stages run, and which report comes back.

## Model

| member | source | states |
|---|---|---|
| Transcript.FormatTimestampFields | main.py:347-359 | the text before the last colon spells `seconds // 60` in at least two digits, the two digits after it spell `seconds % 60` (never above 59); below 100 minutes the text is `MM:SS`, five characters |
| Transcript.ParseFormattedTimestamp | main.py:347-359 | reading a formatted timestamp back the way `extract_video_frames` converts `M:S` gives the original number of seconds |
| Transcript.TranscriptLines | main.py:411 | `transcript.strip().split('\n')` always has at least one line |
| Transcript.AnyContainedSpec | main.py:422 | `any(word in text for word in words)` holds iff some word of the list occurs in the text |
| Transcript.KeyPointsOrder | main.py:408-428 | the key points are lines of the stripped transcript, verbatim, in their original order (a subsequence), and every one is accepted by the keyword-or-numbered-step test |
| Transcript.KeyPointsMembership | main.py:420-426 | a text is a key point iff it is a transcript line that contains a keyword (after lowercasing) or matches `\d+\s*[\.:]` |
| Transcript.KeptSoFarStep | main.py:420-426 | one round of the loop appends line `i` exactly when the keyword-or-step test accepts it |
| Transcript.KeptSoFarAll | main.py:420-428 | the loop over all lines ends with exactly the key points |
| Transcript.ExtractKeyPoints | main.py:398-428 | the loop returns the key points of the transcript |
| Transcript.TimestampedLineKept | main.py:425 | any line that opens with `[` and a formatted timestamp is a key point, whatever follows: the colon after the minutes makes the numbered-step pattern match |
| Transcript.SegmentLineKept | main.py:390 | every line `transcribe_audio` writes for a segment is a key point |
| Transcript.SegmentLinesAt | main.py:386-390 | line `k` of the formatted transcript is `[start] - [end] - text` of segment `k` |
| Transcript.FormatTimestampNoBreak | main.py:359 | a formatted timestamp holds no line break |
| Transcript.SegmentLineNoBreak | main.py:390 | a segment line holds no line break when its stripped text holds none |
| Transcript.SegmentLinesNoBreak | main.py:386-390 | no segment line holds a line break when no stripped segment text does |
| Transcript.SegmentsTextSplit | main.py:385-392 | when no segment text holds a line break, splitting the formatted transcript at line breaks gives back the segment lines, one per segment and in order, then the empty piece after the last break |
| Transcript.SegmentsTextStep | main.py:390 | one round of the formatting loop appends the segment's line and a line break |
| Transcript.TranscribeAudio | main.py:361-396 | the formatting loop returns the stripped concatenation of the segment lines; a raise from the service becomes `Error transcribing audio: <error>` |
| Transcript.SidecarPathSpec | main.py:443-449 | the JSON file is `<stem of the audio>_transcript.json` inside a `transcripts` directory beside the audio |
| Transcript.TranscriptRecordOf | main.py:452-460 | the record keeps the audio path, the transcript and the time of saving; `key_points` is present iff a non-empty list was given, and is then that list |
| Transcript.ProcessAudio | main.py:509-558 | a missing audio file gives `Audio file does not exist: <path>` and saves nothing; a raise while saving gives its text; otherwise the result carries the transcript, its key points and the JSON path, and the saved record holds the same transcript and key points |
| Pipeline.StepLines | main.py:620-631 | one numbered line per key step |
| Pipeline.StepItems | main.py:620-631 | one `key_steps_list` entry per key step |
| Pipeline.KeyStepsLines | main.py:619-633 | `key_steps_text` always has at least one line: the steps, or the "no key steps" notice |
| Pipeline.KeyStepsItems | main.py:617-631 | `key_steps_list` has one entry per step when steps were reported, and is empty otherwise |
| Pipeline.StepLinesAt | main.py:620-631 | line `k` is `<k+1>. <description> (at <timestamp>) - Frame: <frame>` of step `k`, and list entry `k` is the same without the frame |
| Pipeline.StepsStep | main.py:620-631 | one round of the loop appends a line break and the step's line to the text, and the step's entry to the list |
| Pipeline.StepLineNoBreak | main.py:622-629 | a step line holds no line break when the step's values hold none |
| Pipeline.KeyStepsSplit | main.py:616-633 | when no step value holds a line break, splitting `key_steps_text` at line breaks gives an empty piece and then exactly one line per step, in order, or the notice that there are none |
| Pipeline.RenderKeySteps | main.py:616-633 | the loop produces the rendered text and the list of step entries that the specification functions define |
| Pipeline.Quoted | main.py:640 | each key step is wrapped in double quotes: dropping the first and last character gives it back |
| Pipeline.Bullets | main.py:674 | each key point becomes one line `- <point>`, and dropping the bullet gives the point back |
| Pipeline.KeyStepsLinesNoBreak | main.py:622-633 | when no step value holds a line break, no rendered key-step line (nor the notice) holds one |
| Pipeline.TranscriptReportSplit | main.py:670-676 | the transcript report starts with the manager output, the transcript and the `--- KEY POINTS ---` line; what follows splits at line breaks into exactly one `- <point>` line per key point, in order (one empty line when there are none), when no key point holds a line break |
| Pipeline.AnalysisReportLines | main.py:667 | the analysis report's lines are its title, a blank line, the summary, a blank line, `Key Steps:`, the rendered steps (or the notice), a blank line and `Frames extracted to: <dir>`, when neither the summary, the directory nor a step value holds a line break |
| Pipeline.AnalysisTextLines | main.py:667 | the same line list for the analysis text itself, which the final report reuses |
| Pipeline.StepsPartSplit | main.py:667 | from `Key Steps:` on, the analysis text's lines are that word, the rendered steps, a blank line and the frames line |
| Pipeline.SplitTwoBlanks | main.py:667 | two one-line pieces, each followed by a blank line, split into those lines and two empty ones before the rest |
| Pipeline.SplitAfterBreak | main.py:667 | a blank line and a last line without a break add an empty piece and that line to the split |
| Pipeline.AnalysisTextPieces | main.py:667 | the analysis text is its title, summary, key-steps part and frames line joined by blank lines |
| Pipeline.AnalysisWordsNoBreak | main.py:667 | the fixed words of the analysis report, and its frames line, hold no line break |
| Pipeline.CreationReportLines | main.py:656-663 | the final report is the creation summary followed by the analysis report; the summary splits into its title, a blank line, the fixed sentence, the output video, `Duration: <d> seconds`, `Frame count: <n>` and a blank line, when the output path holds no line break |
| Pipeline.CreationReportSplit | main.py:656-663 | the final report's lines are the creation summary's lines followed by the analysis report's lines, when the output path holds no line break |
| Pipeline.HeaderLinesNoBreak | main.py:656-660 | no line of the creation summary holds a line break, when the output path holds none |
| Pipeline.HeaderWordsNoBreak | main.py:656-660 | the fixed words of the creation summary hold no line break |
| Pipeline.DigitsOrSignNoBreak | main.py:659-660 | `str()` of an integer holds no line break |
| Pipeline.ProcessRequest | main.py:578-681 | at most three stages run after the manager agent |
| Pipeline.PassThrough | main.py:580-585 | no stage runs iff the manager did not return the download type with a truthy, existing audio path, and then the report is `str(manager_output)`; otherwise `process_audio` runs first, on that path |
| Pipeline.AudioFailureStops | main.py:591-592 | a `process_audio` error ends the request with that error, and no later stage runs |
| Pipeline.UnderstandingRunsWhenDue | main.py:595-612 | the understanding agent runs iff audio processing succeeded and both the JSON path and the video path are truthy and exist; it is then the second stage, on the video and the JSON |
| Pipeline.EditingNeedsFrames | main.py:636-653 | the editing agent runs iff the understanding agent returned its output type with a truthy, existing frames directory; it is then the third stage, on that directory, the rendered key-step list and the summary |
| Pipeline.ReportAfterAudio | main.py:614-678 | after successful audio processing: the creation report iff the editing agent returned its type; else the analysis report iff the understanding agent returned its type; else the transcript and key points |
| FrameTools.ParseTimestampOfParts | components/video_process_tool.py:36-40 | a timestamp whose two colon-separated parts convert reads as `minutes * 60 + seconds` |
| FrameTools.ParseTimestampTwoParts | components/video_process_tool.py:36-40 | `str(m) + ":" + str(s)` reads back as `m * 60 + s` for any integers |
| FrameTools.ParseTimestampOnePart | components/video_process_tool.py:41-43 | a plain integer reads back as itself |
| FrameTools.ParseTimestampGroupedMinutes | components/video_process_tool.py:37-40 | a minutes field with digit grouping, such as `1_0:30`, is read as ten minutes (630 seconds) |
| FrameTools.ParseTimestampColons | components/video_process_tool.py:37-43 | a timestamp with colons that does not split into exactly two parts is rejected, because `int()` refuses the colon |
| FrameTools.ParseTimestamps | components/video_process_tool.py:34-43 | the conversion loop converts every timestamp in order, or stops with the `ValueError` of the first one that does not convert |
| FrameTools.DefaultFramesDir | components/video_process_tool.py:27-29 | the default frames directory is named `<video stem>_frames` |
| FrameTools.GrabCommands | components/video_process_tool.py:46-58 | one ffmpeg command per converted timestamp |
| FrameTools.GrabCommandsAt | components/video_process_tool.py:47-58 | command `k` grabs frame `k` at its own seconds into `frame_<k+1:02d>_<seconds>s.jpg` |
| FrameTools.GrabCommandsStep | components/video_process_tool.py:47-60 | one round of the grab loop appends that frame's command |
| FrameTools.FrameFileNameSearch | components/video_process_tool.py:189 | the pattern `(\d+)s\.` finds the seconds in the name of a frame file |
| FrameTools.FrameFileNameNoSlash | components/video_process_tool.py:48 | a frame file name is a single path component |
| FrameTools.FrameNameSecondsRoundTrip | components/video_process_tool.py:189-190 | for a frame written at `n >= 0` seconds, the label `create_video_from_frames` derives from its path is `str(n)`: the file name carries the seconds back |
| FrameTools.CandidateFrames | components/video_process_tool.py:63-67 | one candidate record per timestamp |
| FrameTools.WrittenFlags | components/video_process_tool.py:62 | one "file exists" flag per timestamp |
| FrameTools.KeptFrames | components/video_process_tool.py:46-67 | at most one record per timestamp |
| FrameTools.KeptFramesStep | components/video_process_tool.py:62-67 | one round of the loop appends a record iff that frame's file exists |
| FrameTools.KeptFramesFilter | components/video_process_tool.py:46-67 | the records are the candidates filtered by whether their file exists |
| FrameTools.KeptFramesSpec | components/video_process_tool.py:46-67 | the records reported are exactly those of the timestamps whose frame file exists, in timestamp order, and each carries the original timestamp text, its seconds and its frame path |
| FrameTools.GrabsSucceededStep | components/video_process_tool.py:60 | a grab that exits with 0 extends the run of successful grabs |
| FrameTools.GrabFailedReported | components/video_process_tool.py:60-81 | the first grab that exits non-zero ends the loop with `CalledProcessError` for that command, after exactly the commands before it |
| FrameTools.GrabsDoneReported | components/video_process_tool.py:46-74 | when every grab succeeds, the result lists the kept frames and their count |
| FrameTools.GrabFrames | components/video_process_tool.py:46-81 | the grab loop runs the commands in order until one fails; it then reports that failure, and otherwise the kept frames with `total_frames` equal to their number |
| FrameTools.ExtractVideoFrames | components/video_process_tool.py:13-81 | the frames directory reported is the one given, else the default; an unconvertible timestamp fails before any ffmpeg command; otherwise the grab loop's report |
| FrameTools.ScriptLinesLength | components/video_process_tool.py:186-210 | the script has two lines per frame, plus an `outpoint` for every frame but the last when transitions are on |
| FrameTools.ScriptLinesPrefix | components/video_process_tool.py:187-210 | writing more frames only appends lines |
| FrameTools.ScriptLinesBlock | components/video_process_tool.py:187-210 | frame `i`'s block sits at a fixed position once it is written |
| FrameTools.ConcatScriptShape | components/video_process_tool.py:186-210 | the concat script lists, for each frame in order, `file '<frame>'` and `duration <d>`; with transitions on, every frame but the last is followed by `outpoint <(i+1)*d>` |
| FrameTools.WriteConcatScript | components/video_process_tool.py:186-210 | the writing loop produces that script |
| FrameTools.ReplaceChar | components/video_process_tool.py:246 | after `s.replace(c, repl)`, `c` no longer occurs when `repl` does not contain it |
| FrameTools.ReplaceConcat | components/video_process_tool.py:246 | replacing a character distributes over concatenation |
| FrameTools.EscapeOne | components/video_process_tool.py:246 | the two chained replacements escape a single character |
| FrameTools.EscapeIsEach | components/video_process_tool.py:246 | the two chained replacements equal escaping character by character (the backslashes added for quotes are never re-escaped) |
| FrameTools.EscapeRoundTrip | components/video_process_tool.py:246 | escaping loses nothing: unescaping the drawtext text gives back the overlay text |
| FrameTools.EachRoundTrip | components/video_process_tool.py:246 | unescaping undoes escaping character by character |
| FrameTools.EachHead | components/video_process_tool.py:246 | an escaped text never starts with a quote or a colon |
| FrameTools.EscapeGuards | components/video_process_tool.py:246 | in the escaped text every quote and colon is preceded by a backslash |
| FrameTools.EachGuards | components/video_process_tool.py:246 | the same holds for escaping character by character |
| FrameTools.OverlayCandidates | components/video_process_tool.py:242-252 | one candidate filter per overlay |
| FrameTools.HasText | components/video_process_tool.py:238-240 | one "has text" flag per overlay |
| FrameTools.FiltersUpToFilter | components/video_process_tool.py:234-252 | the filters for the first `k` overlays are the candidates among them that have text |
| FrameTools.DrawtextFiltersSpec | components/video_process_tool.py:233-252 | a filter is built iff some overlay `i` exists below the frame count with non-empty text; the filter then shows that text escaped, from `i*d` to `(i+1)*d` |
| FrameTools.DrawtextFiltersOrder | components/video_process_tool.py:233-252 | the filters follow overlay order and come from the overlays with text before the first overlay past the last frame |
| FrameTools.BuildDrawtextFilters | components/video_process_tool.py:233-252 | the overlay loop, with its `break` and `continue`, builds those filters |
| FrameTools.Glob | components/video_process_tool.py:167 | glob returns at most one path per directory entry |
| FrameTools.GlobSpec | components/video_process_tool.py:167 | a path is globbed iff it is a matching entry joined to the directory |
| FrameTools.GlobEmpty | components/video_process_tool.py:168-169 | glob is empty iff no entry matches |
| FrameTools.ChosenFramesSpec | components/video_process_tool.py:166-175 | the frames are sorted; they are the `.jpg` files whenever one exists, else the `.png` files; there are none iff neither kind exists |
| FrameTools.IntOfText | components/video_process_tool.py:289 | `int()` of an integer printed in decimal gives it back |
| FrameTools.ReadVideoInfoDefaults | components/video_process_tool.py:285-289 | without a `streams` key, the video reports the planned duration and frame count, and 0 for width and height; an empty `streams` list raises `list index out of range` |
| FrameTools.ReadVideoInfoFrameCount | components/video_process_tool.py:289 | a frame count that ffprobe prints as a decimal string is reported as that count |
| FrameTools.Truncate | components/video_process_tool.py:301 | `int()` of a float succeeds iff the float is finite, giving its truncation toward zero; an infinity and NaN raise with Python's messages |
| FrameTools.ReadVideoInfoOrder | components/video_process_tool.py:288-301 | after `float(duration)` succeeds, a frame count that `int()` refuses is the error even for an infinite or NaN duration; otherwise the truncation of the duration decides, and a finite duration is reported truncated |
| FrameTools.DefaultVideoOutputPath | components/video_process_tool.py:145-148 | the default output is `summary_video.mp4` in an `output` directory beside the frames directory |
| FrameTools.RenderFilters | components/video_process_tool.py:259 | one rendered filter text per filter |
| FrameTools.TextPassSpec | components/video_process_tool.py:229-254 | the second ffmpeg pass runs iff some overlay shown with a frame has text |
| FrameTools.VideoPlan | components/video_process_tool.py:212-281 | the plan is two or three commands |
| FrameTools.VideoCreatedSpec | components/video_process_tool.py:212-306 | a created video went through every planned command with exit 0 and ended with the probe of the output; it reports that output and the number of frames used |
| FrameTools.ConcatFailedReported | components/video_process_tool.py:226 | a failing concat encode is reported as that command's `CalledProcessError`, and nothing after it runs |
| FrameTools.TextFailedReported | components/video_process_tool.py:266 | a failing text pass is reported as its `CalledProcessError` after the encode |
| FrameTools.ProbeReported | components/video_process_tool.py:281-306 | once the encodes succeed, the probe's failure or its parsed info is reported |
| FrameTools.RunVideoCommands | components/video_process_tool.py:212-313 | the commands run in plan order until one exits non-zero, and that failure or the probed info is reported |
| FrameTools.CreateVideoFromFrames | components/video_process_tool.py:121-313 | a missing directory, or one with no frames, is reported before any command; otherwise the script is the concat script of the sorted frames, the defaults fps 1, 3 s per frame and transitions on apply, and the commands are reported as above |
| FrameTools.DefaultAudioOutputPath | components/video_process_tool.py:329-332 | the default audio file is `<video stem>.mp3` |
| FrameTools.ReadAudioInfoSpec | components/video_process_tool.py:374-377 | a sample rate printed as a decimal string is reported as that rate; a missing field, or a missing `streams` list, reads as 0 |
| FrameTools.ReadAudioInfoOrder | components/video_process_tool.py:375-382 | after `float(duration)` succeeds, the sample rate's and then the channel count's `int()` errors come first; otherwise the truncation of the duration decides, and a finite duration is reported truncated with the rate and channels |
| FrameTools.ExtractAudioFromVideo | components/video_process_tool.py:316-392 | the following are reported in this order: a missing video (no command runs); a failed extraction; an output file that was not created; a failed probe; the probed duration, rate and channels; a success means both commands exited with 0 |
| FrameTools.ReadTranscriptJson | components/video_process_tool.py:84-118 | the data is returned iff the file exists and decodes; else `File not found`, `Invalid JSON file` or the raised text, each with the path where the source gives it |
| Downloader.HashSuffix | templates/video_downloader.py:45 | `hash(url) % 10000` lies in 0..9999 for any hash, negative ones included |
| Downloader.AllowedFlags | templates/video_downloader.py:48 | one "allowed" flag per character |
| Downloader.KeepAllowed | templates/video_downloader.py:48 | filtering never lengthens the title |
| Downloader.KeepAllowedSpec | templates/video_downloader.py:48 | the whitelist keeps exactly the letters, digits and `._- `, verbatim and in order |
| Downloader.KeepAllowedClean | templates/video_downloader.py:48 | a title of allowed characters only is kept whole |
| Downloader.SanitizeAllowed | templates/video_downloader.py:48 | every character of a cleaned title is allowed |
| Downloader.SanitizeClean | templates/video_downloader.py:48 | a title of allowed characters with no whitespace at either end is left unchanged |
| Downloader.SanitizeIdempotent | templates/video_downloader.py:48 | a cleaned title has no whitespace at either end, and cleaning it again changes nothing |
| Downloader.FallbackClean | templates/video_downloader.py:50 | the hash fallback consists of allowed characters and is already trimmed |
| Downloader.FinalTitleSpec | templates/video_downloader.py:36-50 | the file name is never empty and already clean: the cleaned title when that is non-empty, else `video_<k>` with `0 <= k < 10000` |
| Downloader.YoutubeTitle | templates/video_downloader.py:40-42 | with no title, the name chosen for a YouTube URL is `youtube_<id>`, untouched by the cleaning |
| Downloader.DownloadPlan | templates/video_downloader.py:58-86 | the plan ends with the download and then the info dump, after an availability check for a YouTube URL |
| Downloader.PlanFetches | templates/video_downloader.py:72-81 | every plan downloads |
| Downloader.CheckFailedReported | templates/video_downloader.py:61-69 | a failed availability check is reported as `Video unavailable`, with only that command run |
| Downloader.FetchFailedReported | templates/video_downloader.py:72-106 | a failed download is reported with its standard error, and the info dump is not run |
| Downloader.InfoFailedReported | templates/video_downloader.py:85-106 | a failed info dump is reported with its standard error |
| Downloader.FinishedReported | templates/video_downloader.py:81-99 | running the whole plan successfully gives the finished result |
| Downloader.RunDownload | templates/video_downloader.py:55-112 | the commands run in plan order until one fails; a failed check is `Video unavailable`, any other failure carries its stderr, and only a full run can succeed |
| Downloader.DownloadVideoAsWritten | templates/video_downloader.py:14-112 | `download_video` as written, with `output_dir` defaulting to `videos` and `max_height` to 720: the line-58 search raises when a title was given |
| Downloader.GivenTitleNeverDownloads | templates/video_downloader.py:36-58 | as written, with a title given, no command runs and the result is the `UnboundLocalError` text |
| Downloader.DownloadVideo | templates/video_downloader.py:14-112 | with the pattern bound for every call, the search always runs and the result follows the plan; `output_dir` defaults to `videos` and `max_height` to 720 |
| Downloader.DefaultDownloadArguments | templates/video_downloader.py:14-75 | left to their defaults, the download command's format selector is `best[height<=720]` and its output template is `videos/<title>.%(ext)s`, the title being a single path component |
| Downloader.FinalTitleAllowed | templates/video_downloader.py:47-50 | the final title is non-empty and made of allowed characters only |
| Downloader.DefaultTemplate | templates/video_downloader.py:53 | a non-empty name of allowed characters joined to `videos` is `videos/<name>` |
| Downloader.AllSucceed | templates/video_downloader.py:72-99 | when every command exits with 0, the whole plan runs and the result is built from the printed file name and the info dump |
| Downloader.GivenTitleDownloads | templates/video_downloader.py:48-99 | with the pattern bound, a given title is used: when every command succeeds the plan includes the download command whose output template is `<output_dir>/<cleaned title>.%(ext)s`, and the result is a success for that URL |
| Downloader.UnavailableStops | templates/video_downloader.py:58-69 | a failed availability check stops everything: only the check ran, and the result is the `Video unavailable` error without command output |
| Downloader.FailuresReported | templates/video_downloader.py:81-106 | a success means the whole plan ran with exit 0; any other command that fails is the last one run, and it is reported with its standard error as message and command output |
| PyText.DigitChar | components/video_process_tool.py:48 | a decimal digit's character has that value |
| PyText.NatToString | components/video_process_tool.py:48 | `str(n)` is all digits, one digit iff `n < 10`, at most two below 100 |
| PyText.NatToStringValue | components/video_process_tool.py:48 | the digits of `str(n)` spell `n` |
| PyText.LeadingZeroValue | main.py:359 | a leading zero does not change a digit run's value |
| PyText.IntToString | components/video_process_tool.py:52 | `str(i)` is `str(abs(i))`, prefixed with `-` for a negative `i` |
| PyText.ZeroPad2 | main.py:359 | `f"{n:02d}"` has at least two digits, exactly two below 100, and spells `n` |
| PyText.StripLeft | main.py:389 | what is dropped at the front is whitespace, and the rest starts with a non-space |
| PyText.StripRight | main.py:389 | what is dropped at the back is whitespace, and the rest ends with a non-space |
| PyText.Strip | main.py:389 | the result has no whitespace at either end |
| PyText.StripContents | main.py:389 | stripping removes only whitespace and adds nothing |
| PyText.StripTrimmed | main.py:392 | trimmed text is left as it is |
| PyText.StripIdempotent | main.py:411 | stripping twice equals stripping once |
| PyText.DigitNotSpace | templates/video_downloader.py:48 | digits and `-` are not whitespace |
| PyText.ParseIntRejects | components/video_process_tool.py:39-43 | `int()` rejects any text holding a character other than whitespace, a sign, a digit or the grouping underscore |
| PyText.ParseIntGrouped | components/video_process_tool.py:39 | `int()` accepts one `_` between two digit runs and reads the runs written together (`int("1_000") == 1000`) |
| PyText.ParseIntOfIntToString | components/video_process_tool.py:43 | `int(str(i)) == i` |
| PyText.ParseIntOfDigits | components/video_process_tool.py:39 | `int()` of a digit run is its value, leading zeros included |
| PyText.IndexOf | main.py:411 | the first occurrence of the character |
| PyText.Split | main.py:411 | `split` always gives at least one piece |
| PyText.SplitParts | main.py:411 | no piece of a split holds the separator |
| PyText.JoinSplit | main.py:411 | joining the pieces of a split with the separator gives back the text |
| PyText.SplitAround | components/video_process_tool.py:37 | splitting `x + sep + y` gives the pieces of `x` followed by those of `y` |
| PyText.SplitNoSep | components/video_process_tool.py:37 | text without the separator splits into itself |
| PyText.TerminatedStep | main.py:390 | appending `line + "\n"` extends the text by one terminated line |
| PyText.SplitTerminated | main.py:385-392 | splitting terminated lines at `\n` gives back the lines |
| PyText.LedOne | main.py:633 | the notice line is preceded by a line break |
| PyText.SplitLed | main.py:622 | splitting lines that each follow a `\n` gives an empty piece and the lines |
| PyText.SplitJoin | main.py:674 | joining pieces that hold no separator with it, then splitting, gives back the pieces |
| PyText.SplitBlank | main.py:667 | a one-line piece followed by a blank line splits into that line and an empty one before the rest |
| PyText.SplitLedAfter | main.py:667 | a one-line head followed by lines that each follow a `\n` splits into the head and the lines |
| PyText.DigitsExclude | main.py:359 | a run of digits holds no other character |
| PyText.ContainsMiddle | main.py:422 | a text contains any of its infixes |
| PyText.LexLeTotal | components/video_process_tool.py:167 | Python's string order is total |
| PyText.LexLeTrans | components/video_process_tool.py:167 | Python's string order is transitive |
| PyText.InsertLex | components/video_process_tool.py:167 | insertion keeps a sorted list sorted and adds exactly one element |
| PyText.SortLex | components/video_process_tool.py:167 | `sorted` returns a sorted permutation of its input |
| PosixPath.RFind | main.py:447 | `rfind` gives the last occurrence, or -1 |
| PosixPath.Basename | main.py:447 | the basename is a suffix of the path and holds no `/` |
| PosixPath.Join | main.py:449 | joining with a name that does not end in `/` gives a path that does not end in `/` |
| PosixPath.SplitExtRoot | main.py:448 | the root of `splitext` is a prefix of the path |
| PosixPath.Stem | main.py:447-448 | the stem of a path holds no `/` |
| PosixPath.BasenameOfJoin | main.py:449 | the basename of `join(d, name)` is `name` for a plain file name |
| PosixPath.DirnameOfJoin | main.py:449 | the dirname of `join(d, name)` is `d` for a non-empty `d` that does not end in `/` |
| Common.FilterSelected | main.py:420-426 | a filtered list is the kept positions' elements, in order |
| Common.FilterMembership | main.py:420-426 | an element is kept iff it occurs at a flagged position |
| Common.TryMapSpec | components/video_process_tool.py:36-43 | converting stops at the first element that raises, with its error; otherwise every element converts |
| Common.RanUntilFailureLast | templates/video_downloader.py:55-106 | in a run that stops at the first failure, only the last command can have failed; if it exited 0, the whole plan ran |

## Left out

- Floats: `format_timestamp` is modelled on whole seconds. `float()` of an ffprobe string is an oracle (`Tools.parseFloat`) giving a finite value (kept as its truncation toward zero), an infinity or NaN, or the error it raises. `float()` of an integer is taken as exact; the rounding of integers beyond 2**53 and the OverflowError beyond the float range are not modelled.
- The unused `fade_duration` (line 203 of `create_video_from_frames`) and the unused `timestamp` label (lines 189-190) have no effect on the output. The label is still modelled, as `FrameTools.FrameLabel`.
- File system side effects (`os.makedirs`, writing the JSON and script files, `os.replace`, the cleanup of temporary files) are not modelled. The model records what would be written (the transcript record, the script lines, the commands) and takes existence checks as inputs.
- `os.path.exists` in `process_request` is one function of the path (`Pipeline.Run.pathExists`) for every check in the request. A path that changes existence between two checks of the same request is not modelled. In the tools, each existence check is an input of its own (one flag per frame file, for instance). A file created by a command is seen only through that flag.
- `convert_audio_to_mp3` is not modelled; `transcribe_audio` receives the transcription service's answer, or its raise, as input.
- The OpenAI client and the agents SDK (`Runner.run`, tracing, handoffs, the agent definitions) are oracles. `process_request` is modelled from the manager's final output on.
- `str()` of the manager's pydantic output is an input (`shown`). The `timestamp` and `frame` values of a key step are shown through an f-string, so they are taken as their `str()`.
- Pipeline.StepItem: a key step's `description` is taken as a string. The source keeps the raw value (main.py:621). When the step has a `timestamp`, main.py:626 runs `step_text += f" (at ...)"`: a number, `None` or a dictionary there raises TypeError, which nothing in `process_request` catches, and a list is extended one character at a time. Without a `timestamp`, the raw value goes into `key_steps_list` as it is. The model shows the description as text in both cases and never raises there.
- The yt-dlp download command is modelled by its argument list only; no file is modelled. Its `--print filename` option makes yt-dlp simulate unless told otherwise, so whether anything is written is left to the yt-dlp oracle, as is the file name it prints.
- Console `print` calls are not modelled.
- `\d`, `str.isalnum` and `str.lower` are modelled for ASCII (plus the two non-ASCII characters that lowercase to ASCII letters). Other Unicode digits and letters are not modelled.
- PyText.ParseInt: `int()` also accepts non-ASCII Unicode decimal digits (`int("١٢")` is 12). The model accepts ASCII digits with `_` grouping only, so it refuses such text where Python converts it.
- The YouTube id regular expression is an oracle (`Downloader.Env.searchId`) that returns an 11-character id from `[a-zA-Z0-9_-]`.
- `hash()` is an input, because it is salted per process. Only the range of `% 10000` is proved.
- Glob metacharacters inside the frames directory name are not modelled. `glob` is the directory listing filtered by extension; hidden files are skipped.
- The `UnboundLocalError` text is worded as in Python 3.11 and later.
- `datetime.now().isoformat()` is an input (`now`).
- Exceptions other than a command's non-zero exit (from `makedirs`, `open`, `json.dump`) appear only where the source turns them into a result: the `saveFailure` of `process_audio`, `LoadRaised` of `read_transcript_json`, ffprobe output that is not JSON, a yt-dlp `--dump-json` output that is not JSON (`Downloader.Finished` gives `Raising`), and the `UnboundLocalError` of the YouTube-id search (`Raising(UnboundPattern)`).
- The download stage's `video_exists`/`audio_exists` flags are not modelled. The code never reads them in `process_request`; it checks that the audio path is truthy and exists, and does not abort when the video is missing. The model follows the code.
- Pipeline.ProcessRequest: its own contract only bounds the number of stages. What it does is stated by PassThrough, AudioFailureStops, UnderstandingRunsWhenDue, EditingNeedsFrames and ReportAfterAudio.

## Findings

| source | as written | input that shows it | evidently intended | confidence | as-written member | corrected member |
|---|---|---|---|---|---|---|
| templates/video_downloader.py:38,58 | `youtube_pattern` is bound only inside `if not video_title`, but line 58 uses it on every call | any call with a non-empty `video_title`: line 58 raises `UnboundLocalError`, and the generic handler returns `Failed to download video: ...` before any yt-dlp command | the pattern is bound before the title is chosen, so a given title is used for the download | not executed | Downloader.DownloadVideoAsWritten, Downloader.GivenTitleNeverDownloads | Downloader.DownloadVideo, Downloader.GivenTitleDownloads |
