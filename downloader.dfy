/** `download_video` (templates/video_downloader.py): the file name chosen
    for a download, and the yt-dlp commands run with their early returns.
    yt-dlp, the YouTube-id regular expression and Python's `hash()` are
    oracles: fields of an `Env`. */
module Downloader {
  import opened Common
  import opened PyText
  import opened PosixPath

  // ================================================================ title

  /** A character of the id group `[a-zA-Z0-9_-]`. */
  predicate IdChar(c: char)
  {
    'a' <= c <= 'z' || 'A' <= c <= 'Z' || '0' <= c <= '9' || c == '_' || c == '-'
  }

  /** What the id group `([a-zA-Z0-9_-]{11})` can match. */
  predicate IsYoutubeId(s: string)
  {
    |s| == 11 && forall i :: 0 <= i < |s| ==> IdChar(s[i])
  }

  type YoutubeId = s: string | IsYoutubeId(s) witness "aaaaaaaaaaa"

  /** Everything `download_video` learns from outside. `searchId` is
      `re.search(youtube_pattern, url)` and its group 1, `hash` is
      `hash(video_url)` in this process, `parseJson` is `json.loads` on the
      info command's output. */
  datatype Env = Env(
    searchId: string -> Option<YoutubeId>,
    hash: int,
    exitCode: DownloadCommand -> int,
    stdout: DownloadCommand -> string,
    stderr: DownloadCommand -> string,
    parseJson: string -> InfoJson)

  /** `if not video_title`: no title, or the empty one. */
  predicate TitleGiven(title: Option<string>)
  {
    title.Some? && title.value != ""
  }

  /** `hash(video_url) % 10000`: Python's `%` with a positive divisor is
      never negative, as Dafny's is. */
  function HashSuffix(h: int): (k: nat)
    ensures k < 10000
  {
    h % 10000
  }

  /** `f"video_{hash(video_url) % 10000}"` (lines 45 and 50). */
  function FallbackTitle(h: int): string
  {
    "video_" + NatToString(HashSuffix(h))
  }

  /** The title before cleaning (lines 36-45): the given one, else
      `youtube_<id>` for a YouTube URL, else the hash fallback. */
  function ChosenTitle(title: Option<string>, id: Option<YoutubeId>, h: int): string
  {
    if TitleGiven(title) then title.value
    else if id.Some? then "youtube_" + id.value
    else FallbackTitle(h)
  }

  /** `c.isalnum() or c in "._- "`, for ASCII letters and digits. */
  predicate Allowed(c: char)
  {
    'a' <= c <= 'z' || 'A' <= c <= 'Z' || '0' <= c <= '9' || c == '.' || c == '_' || c == '-' || c == ' '
  }

  function AllowedFlags(s: string): (flags: seq<bool>)
    ensures |flags| == |s|
  {
    seq(|s|, i requires 0 <= i < |s| => Allowed(s[i]))
  }

  /** `"".join(c for c in s if c.isalnum() or c in "._- ")`. */
  function KeepAllowed(s: string): (r: string)
    ensures |r| <= |s|
  {
    Filter(s, AllowedFlags(s))
  }

  /** The cleaning at line 48. */
  function Sanitize(title: string): string
  {
    Strip(KeepAllowed(title))
  }

  /** The title after cleaning, with the hash fallback when nothing is left
      (lines 48-50). */
  function FinalTitle(title: Option<string>, id: Option<YoutubeId>, h: int): string
  {
    var cleaned := Sanitize(ChosenTitle(title, id, h));
    if cleaned == [] then FallbackTitle(h) else cleaned
  }

  /** `os.path.join(output_dir, video_title)` (line 53). */
  function OutputTemplate(outputDir: string, title: Option<string>, url: string, env: Env): string
  {
    var id := if TitleGiven(title) then None else env.searchId(url);
    Join(outputDir, FinalTitle(title, id, env.hash))
  }

  /** The cleaning keeps exactly the allowed characters, verbatim and in
      their original order. */
  lemma KeepAllowedSpec(s: string, c: char)
    ensures var r, idx := KeepAllowed(s), Selected(AllowedFlags(s));
      && |r| == |idx|
      && (forall k :: 0 <= k < |r| ==> idx[k] < |s| && r[k] == s[idx[k]] && Allowed(r[k]))
      && (forall k, l :: 0 <= k < l < |r| ==> idx[k] < idx[l])
    ensures c in KeepAllowed(s) <==> c in s && Allowed(c)
  {
    var flags := AllowedFlags(s);
    FilterSelected(s, flags);
    FilterMembership(s, flags, c);
    if c in s && Allowed(c) {
      var i :| 0 <= i < |s| && s[i] == c;
      assert flags[i];
    }
  }

  /** A string of allowed characters only is kept whole. */
  lemma {:induction false} KeepAllowedClean(s: string)
    requires forall i :: 0 <= i < |s| ==> Allowed(s[i])
    ensures KeepAllowed(s) == s
  {
    if s != [] {
      var n := |s| - 1;
      KeepAllowedClean(s[..n]);
      assert AllowedFlags(s)[..n] == AllowedFlags(s[..n]);
      assert s[..n] + [s[n]] == s;
    }
  }

  /** Every character of a cleaned title is allowed. */
  lemma SanitizeAllowed(title: string)
    ensures forall i :: 0 <= i < |Sanitize(title)| ==> Allowed(Sanitize(title)[i])
  {
    var kept := KeepAllowed(title);
    StripContents(kept);
    forall i | 0 <= i < |Sanitize(title)| ensures Allowed(Sanitize(title)[i]) {
      KeepAllowedSpec(title, Sanitize(title)[i]);
    }
  }

  /** A title of allowed characters only, with no whitespace at either end,
      is left as it is by the cleaning. */
  lemma SanitizeClean(t: string)
    requires forall i :: 0 <= i < |t| ==> Allowed(t[i])
    requires t == [] || (!IsSpace(t[0]) && !IsSpace(t[|t| - 1]))
    ensures Sanitize(t) == t
  {
    KeepAllowedClean(t);
    StripTrimmed(t);
  }

  /** A cleaned title has no whitespace at either end, and cleaning it again
      changes nothing. */
  lemma SanitizeIdempotent(title: string)
    ensures var t := Sanitize(title);
      t == [] || (!IsSpace(t[0]) && !IsSpace(t[|t| - 1]))
    ensures Sanitize(Sanitize(title)) == Sanitize(title)
  {
    SanitizeAllowed(title);
    SanitizeClean(Sanitize(title));
  }

  /** The hash fallback is made of allowed characters only. */
  lemma FallbackClean(h: int)
    ensures forall i :: 0 <= i < |FallbackTitle(h)| ==> Allowed(FallbackTitle(h)[i])
    ensures FallbackTitle(h)[0] == 'v' && FallbackTitle(h)[|FallbackTitle(h)| - 1] != ' '
  {
    var d := NatToString(HashSuffix(h));
    assert FallbackTitle(h) == "video_" + d;
    assert forall i :: 0 <= i < |d| ==> IsDigit(d[i]);
  }

  /** The file name is never empty and is already clean: either the cleaned
      title, when that is not empty, or `video_<k>` with `0 <= k < 10000`. */
  lemma FinalTitleSpec(title: Option<string>, id: Option<YoutubeId>, h: int)
    ensures var t := FinalTitle(title, id, h);
      && t != []
      && Sanitize(t) == t
      && (Sanitize(ChosenTitle(title, id, h)) != [] ==> t == Sanitize(ChosenTitle(title, id, h)))
      && (Sanitize(ChosenTitle(title, id, h)) == [] ==>
            exists k: nat :: k < 10000 && t == "video_" + NatToString(k))
  {
    var cleaned := Sanitize(ChosenTitle(title, id, h));
    if cleaned == [] {
      var f := FallbackTitle(h);
      FallbackClean(h);
      SanitizeClean(f);
    } else {
      SanitizeIdempotent(ChosenTitle(title, id, h));
    }
  }

  /** Without a title, the name chosen for a YouTube URL is `youtube_<id>`:
      the id passes the cleaning untouched. */
  lemma YoutubeTitle(id: YoutubeId, h: int)
    ensures FinalTitle(None, Some(id), h) == "youtube_" + id
  {
    var t := "youtube_" + id;
    assert forall i :: 0 <= i < |t| ==> Allowed(t[i]) by {
      forall i | 0 <= i < |t| ensures Allowed(t[i]) {
        if i >= 8 { assert t[i] == id[i - 8]; }
      }
    }
    assert t[0] == 'y' && t[|t| - 1] == id[10];
    SanitizeClean(t);
  }

  // ============================================================= commands

  /** A yt-dlp command `download_video` runs. */
  datatype DownloadCommand =
    | CheckAvailable(id: string)                               // lines 61-63
    | Fetch(maxHeight: int, template: string, url: string)     // lines 72-81
    | DumpInfo(url: string)                                    // lines 85-86

  /** The argument list of a command. */
  function Argv(c: DownloadCommand): seq<string>
  {
    match c
    case CheckAvailable(id) =>
      ["yt-dlp", "--skip-download", "--playlist-items", "1", "https://www.youtube.com/watch?v=" + id]
    case Fetch(maxHeight, template, url) =>
      ["yt-dlp", "-f", "best[height<=" + IntToString(maxHeight) + "]", "-o", template + ".%(ext)s",
       "--restrict-filenames", "--print", "filename", url]
    case DumpInfo(url) => ["yt-dlp", "--dump-json", url]
  }

  /** The commands in the order they run when each succeeds: the
      availability check for a YouTube URL, the download, the info dump. */
  function DownloadPlan(id: Option<YoutubeId>, maxHeight: int, template: string, url: string): (plan: seq<DownloadCommand>)
    ensures 2 <= |plan| <= 3
    ensures plan[|plan| - 2] == Fetch(maxHeight, template, url) && plan[|plan| - 1] == DumpInfo(url)
  {
    (if id.Some? then [CheckAvailable(id.value)] else []) + [Fetch(maxHeight, template, url), DumpInfo(url)]
  }

  /** Every plan downloads. */
  lemma PlanFetches(id: Option<YoutubeId>, maxHeight: int, template: string, url: string)
    ensures Fetch(maxHeight, template, url) in DownloadPlan(id, maxHeight, template, url)
  {
    var plan := DownloadPlan(id, maxHeight, template, url);
    assert plan[|plan| - 2] == Fetch(maxHeight, template, url);
  }

  /** The info command's output as `json.loads` sees it: not JSON (with the
      decoder's message), or an object. */
  datatype InfoJson = NotJson(message: string) | Info(fields: map<string, JsonScalar>)

  /** The result dictionary. */
  datatype DownloadResult =
    | Downloaded(videoPath: string, videoTitle: string, sourceUrl: string,
                 duration: Option<JsonScalar>, title: Option<JsonScalar>, uploader: Option<JsonScalar>,
                 viewCount: JsonScalar)
    | DownloadError(message: string, error: PyError, commandOutput: Option<string>)

  /** `dict.get(key)`. */
  function Lookup(fields: map<string, JsonScalar>, key: string): Option<JsonScalar>
  {
    if key in fields then Some(fields[key]) else None
  }

  /** The early return for a YouTube video that is gone (lines 65-69). */
  function Unavailable(url: string): DownloadResult
  {
    DownloadError("Video unavailable or has been removed: " + url, Message("Video unavailable"), None)
  }

  /** A command that exited non-zero (lines 100-106): its standard error is
      both in the message and the command output. */
  function ProcessFailed(c: DownloadCommand, env: Env): DownloadResult
  {
    DownloadError("Failed to download video: " + env.stderr(c), CalledProcessError(Argv(c), env.exitCode(c)),
                  Some(env.stderr(c)))
  }

  /** Any other exception (lines 107-112), by its `str()`. */
  function Raising(text: string): DownloadResult
  {
    DownloadError("Failed to download video: " + text, Raised(text), None)
  }

  /** The result once every command has exited with 0 (lines 82-99). */
  function Finished(url: string, fetched: string, info: InfoJson): DownloadResult
  {
    match info
    case NotJson(message) => Raising(message)
    case Info(fields) =>
      var videoPath := Strip(fetched);
      Downloaded(videoPath, Basename(videoPath), url, Lookup(fields, "duration"), Lookup(fields, "title"),
                 Lookup(fields, "uploader"), if "view_count" in fields then fields["view_count"] else JInt(0))
  }

  /** The YouTube-id search at line 58: its result, or the exception it
      raises because `youtube_pattern` was never bound. */
  datatype IdSearch = Searched(id: Option<YoutubeId>) | PatternUnbound

  /** The text of that exception (the wording of Python 3.11 and later). */
  const UnboundPattern := "cannot access local variable 'youtube_pattern' where it is not associated with a value"

  /** What lines 55-112 return and run, given the outcome of the search at
      line 58: the commands are run in plan order until one fails; a failed
      availability check is the "Video unavailable" error, any other failure
      carries its standard error, and only a run of the whole plan can
      succeed. */
  predicate DownloadReported(url: string, template: string, maxHeight: int, search: IdSearch,
                             env: Env, r: DownloadResult, commands: seq<DownloadCommand>)
  {
    match search
    case PatternUnbound => commands == [] && r == Raising(UnboundPattern)
    case Searched(id) =>
      var plan := DownloadPlan(id, maxHeight, template, url);
      && RanUntilFailure(plan, env.exitCode, commands)
      && var last := commands[|commands| - 1];
      && (env.exitCode(last) != 0 ==> r == if last.CheckAvailable? then Unavailable(url) else ProcessFailed(last, env))
      && (env.exitCode(last) == 0 ==>
            r == Finished(url, env.stdout(Fetch(maxHeight, template, url)), env.parseJson(env.stdout(DumpInfo(url)))))
  }

  /** A failed availability check is reported as the video being gone. */
  lemma CheckFailedReported(url: string, template: string, maxHeight: int, id: YoutubeId, env: Env)
    requires env.exitCode(CheckAvailable(id)) != 0
    ensures DownloadReported(url, template, maxHeight, Searched(Some(id)), env, Unavailable(url), [CheckAvailable(id)])
  {
    var plan := DownloadPlan(Some(id), maxHeight, template, url);
    StoppedAt(plan, env.exitCode, 1);
    assert plan[..1] == [CheckAvailable(id)];
  }

  /** A failed download is reported with its standard error. */
  lemma FetchFailedReported(url: string, template: string, maxHeight: int, id: Option<YoutubeId>, env: Env)
    requires id.Some? ==> env.exitCode(CheckAvailable(id.value)) == 0
    requires env.exitCode(Fetch(maxHeight, template, url)) != 0
    ensures var fetch := Fetch(maxHeight, template, url);
      var ran := (if id.Some? then [CheckAvailable(id.value)] else []) + [fetch];
      DownloadReported(url, template, maxHeight, Searched(id), env, ProcessFailed(fetch, env), ran)
  {
    var plan := DownloadPlan(id, maxHeight, template, url);
    var n := if id.Some? then 2 else 1;
    StoppedAt(plan, env.exitCode, n);
    assert plan[..n] == (if id.Some? then [CheckAvailable(id.value)] else []) + [Fetch(maxHeight, template, url)];
  }

  /** A failed info dump is reported with its standard error. */
  lemma InfoFailedReported(url: string, template: string, maxHeight: int, id: Option<YoutubeId>, env: Env)
    requires id.Some? ==> env.exitCode(CheckAvailable(id.value)) == 0
    requires env.exitCode(Fetch(maxHeight, template, url)) == 0
    requires env.exitCode(DumpInfo(url)) != 0
    ensures DownloadReported(url, template, maxHeight, Searched(id), env, ProcessFailed(DumpInfo(url), env),
                             DownloadPlan(id, maxHeight, template, url))
  {
    var plan := DownloadPlan(id, maxHeight, template, url);
    StoppedAt(plan, env.exitCode, |plan|);
    assert plan[..|plan|] == plan;
  }

  /** Running the whole plan ends in the finished result. */
  lemma FinishedReported(url: string, template: string, maxHeight: int, id: Option<YoutubeId>, env: Env)
    requires id.Some? ==> env.exitCode(CheckAvailable(id.value)) == 0
    requires env.exitCode(Fetch(maxHeight, template, url)) == 0
    requires env.exitCode(DumpInfo(url)) == 0
    ensures DownloadReported(url, template, maxHeight, Searched(id), env,
                             Finished(url, env.stdout(Fetch(maxHeight, template, url)),
                                      env.parseJson(env.stdout(DumpInfo(url)))),
                             DownloadPlan(id, maxHeight, template, url))
  {
    RanThrough(DownloadPlan(id, maxHeight, template, url), env.exitCode);
  }

  /** Lines 55-112 of `download_video`, from the search at line 58 on. */
  method RunDownload(url: string, template: string, maxHeight: int, search: IdSearch, env: Env)
    returns (r: DownloadResult, commands: seq<DownloadCommand>)
    ensures DownloadReported(url, template, maxHeight, search, env, r, commands)
  {
    commands := [];
    if search.PatternUnbound? {
      r := Raising(UnboundPattern);
    } else if search.id.Some? && env.exitCode(CheckAvailable(search.id.value)) != 0 {
      commands := [CheckAvailable(search.id.value)];
      r := Unavailable(url);
      CheckFailedReported(url, template, maxHeight, search.id.value, env);
    } else {
      if search.id.Some? {
        commands := [CheckAvailable(search.id.value)];
      }
      var fetch := Fetch(maxHeight, template, url);
      commands := commands + [fetch];
      if env.exitCode(fetch) != 0 {
        r := ProcessFailed(fetch, env);
        FetchFailedReported(url, template, maxHeight, search.id, env);
      } else {
        var info := DumpInfo(url);
        commands := commands + [info];
        assert commands == DownloadPlan(search.id, maxHeight, template, url);
        if env.exitCode(info) != 0 {
          r := ProcessFailed(info, env);
          InfoFailedReported(url, template, maxHeight, search.id, env);
        } else {
          // the file name printed by yt-dlp and the fields of the info dump
          r := Finished(url, env.stdout(fetch), env.parseJson(env.stdout(info)));
          FinishedReported(url, template, maxHeight, search.id, env);
        }
      }
    }
  }

  /** The search at line 58 as written: `youtube_pattern` is bound only in
      the branch taken when no title is given (lines 36-45). */
  function SearchAsWritten(title: Option<string>, url: string, env: Env): IdSearch
  {
    if TitleGiven(title) then PatternUnbound else Searched(env.searchId(url))
  }

  /** The defaults of `output_dir` and `max_height` (lines 16 and 18). */
  const DefaultOutputDir := "videos"
  const DefaultMaxHeight := 720

  /** `download_video` as written (lines 14-112), from the directory on;
      `None` stands for an argument left to its default. */
  method DownloadVideoAsWritten(url: string, outputDir: Option<string>, title: Option<string>,
                                maxHeight: Option<int>, env: Env)
    returns (r: DownloadResult, commands: seq<DownloadCommand>)
    ensures DownloadReported(url, OutputTemplate(outputDir.GetOr(DefaultOutputDir), title, url, env),
                             maxHeight.GetOr(DefaultMaxHeight), SearchAsWritten(title, url, env), env, r, commands)
  {
    var template := OutputTemplate(outputDir.GetOr(DefaultOutputDir), title, url, env);
    r, commands := RunDownload(url, template, maxHeight.GetOr(DefaultMaxHeight), SearchAsWritten(title, url, env), env);
  }

  /** With a title given, the function as written never downloads: the
      search at line 58 raises before any command runs. */
  lemma GivenTitleNeverDownloads(url: string, outputDir: string, title: Option<string>, maxHeight: int, env: Env,
                                 r: DownloadResult, commands: seq<DownloadCommand>)
    requires TitleGiven(title)
    requires DownloadReported(url, OutputTemplate(outputDir, title, url, env), maxHeight,
                              SearchAsWritten(title, url, env), env, r, commands)
    ensures commands == [] && r.DownloadError? && r.error == Raised(UnboundPattern)
  {
  }

  /** `download_video` with the pattern bound before the title is chosen,
      so that the search at line 58 always runs. */
  method DownloadVideo(url: string, outputDir: Option<string>, title: Option<string>, maxHeight: Option<int>, env: Env)
    returns (r: DownloadResult, commands: seq<DownloadCommand>)
    ensures DownloadReported(url, OutputTemplate(outputDir.GetOr(DefaultOutputDir), title, url, env),
                             maxHeight.GetOr(DefaultMaxHeight), Searched(env.searchId(url)), env, r, commands)
  {
    var template := OutputTemplate(outputDir.GetOr(DefaultOutputDir), title, url, env);
    r, commands := RunDownload(url, template, maxHeight.GetOr(DefaultMaxHeight), Searched(env.searchId(url)), env);
  }

  /** Left to their defaults, the download command's format selector is
      `best[height<=720]` and its output template is
      `videos/<title>.%(ext)s`, the title being a single path component. */
  lemma DefaultDownloadArguments(url: string, title: Option<string>, env: Env)
    ensures var t := OutputTemplate(DefaultOutputDir, title, url, env);
      && Argv(Fetch(DefaultMaxHeight, t, url))[2] == "best[height<=720]"
      && |t| > 7 && t[..7] == "videos/" && '/' !in t[7..]
  {
    DefaultFetchFormat(OutputTemplate(DefaultOutputDir, title, url, env), url);
    var id := if TitleGiven(title) then None else env.searchId(url);
    var name := FinalTitle(title, id, env.hash);
    FinalTitleAllowed(title, id, env.hash);
    DefaultTemplate(name);
  }

  /** The final title is non-empty and made of allowed characters only. */
  lemma FinalTitleAllowed(title: Option<string>, id: Option<YoutubeId>, h: int)
    ensures var t := FinalTitle(title, id, h);
      t != [] && forall i :: 0 <= i < |t| ==> Allowed(t[i])
  {
    FinalTitleSpec(title, id, h);
    SanitizeAllowed(FinalTitle(title, id, h));
  }

  /** The default height in yt-dlp's format selector. */
  lemma DefaultFetchFormat(template: string, url: string)
    ensures Argv(Fetch(DefaultMaxHeight, template, url))[2] == "best[height<=720]"
  {
    DefaultHeightText();
  }

  /** `str(720)`. */
  lemma DefaultHeightText()
    ensures IntToString(DefaultMaxHeight) == "720"
  {
    assert NatToString(7) == "7";
    assert NatToString(72) == "72";
    assert NatToString(720) == NatToString(72) + "0";
  }

  /** A non-empty name of allowed characters joined to the default
      directory gives `videos/<name>`. */
  lemma DefaultTemplate(name: string)
    requires name != [] && forall i :: 0 <= i < |name| ==> Allowed(name[i])
    ensures var t := Join(DefaultOutputDir, name);
      |t| > 7 && t[..7] == "videos/" && '/' !in t[7..]
  {
    assert !Allowed('/');
    var t := Join(DefaultOutputDir, name);
    assert t == "videos/" + name;
    assert t[7..] == name;
  }

  /** When every command exits with 0, the whole plan runs and the result is
      the finished one. */
  lemma AllSucceed(url: string, template: string, maxHeight: int, id: Option<YoutubeId>, env: Env,
                   r: DownloadResult, commands: seq<DownloadCommand>)
    requires DownloadReported(url, template, maxHeight, Searched(id), env, r, commands)
    requires forall c :: env.exitCode(c) == 0
    ensures commands == DownloadPlan(id, maxHeight, template, url)
    ensures r == Finished(url, env.stdout(Fetch(maxHeight, template, url)), env.parseJson(env.stdout(DumpInfo(url))))
  {
    RanUntilFailureLast(DownloadPlan(id, maxHeight, template, url), env.exitCode, commands);
    assert env.exitCode(commands[|commands| - 1]) == 0;
  }

  /** With the pattern bound, a given title is used: when every command
      succeeds and the info is JSON, the whole plan runs, the download
      command's output template is `<output_dir>/<cleaned title>.%(ext)s`
      and the result is a success. */
  lemma GivenTitleDownloads(url: string, outputDir: string, title: Option<string>, maxHeight: int, env: Env,
                            r: DownloadResult, commands: seq<DownloadCommand>)
    requires TitleGiven(title) && Sanitize(title.value) != []
    requires DownloadReported(url, OutputTemplate(outputDir, title, url, env), maxHeight,
                              Searched(env.searchId(url)), env, r, commands)
    requires forall c :: env.exitCode(c) == 0
    requires env.parseJson(env.stdout(DumpInfo(url))).Info?
    ensures r.Downloaded? && r.sourceUrl == url
    ensures Fetch(maxHeight, Join(outputDir, Sanitize(title.value)), url) in commands
  {
    var template := OutputTemplate(outputDir, title, url, env);
    assert template == Join(outputDir, Sanitize(title.value));
    AllSucceed(url, template, maxHeight, env.searchId(url), env, r, commands);
    PlanFetches(env.searchId(url), maxHeight, template, url);
  }

  /** A failed availability check stops the function: nothing is
      downloaded and the result is the "Video unavailable" error. */
  lemma UnavailableStops(url: string, template: string, maxHeight: int, id: YoutubeId, env: Env,
                         r: DownloadResult, commands: seq<DownloadCommand>)
    requires DownloadReported(url, template, maxHeight, Searched(Some(id)), env, r, commands)
    requires env.exitCode(CheckAvailable(id)) != 0
    ensures commands == [CheckAvailable(id)]
    ensures r.DownloadError? && r.error == Message("Video unavailable") && r.commandOutput == None
  {
    var plan := DownloadPlan(Some(id), maxHeight, template, url);
    assert commands[0] == plan[0];
  }

  /** Every failed command is reported as an error result carrying the
      command's standard error, never raised; a success means every command
      of the plan exited with 0. */
  lemma FailuresReported(url: string, template: string, maxHeight: int, id: Option<YoutubeId>, env: Env,
                         r: DownloadResult, commands: seq<DownloadCommand>)
    requires DownloadReported(url, template, maxHeight, Searched(id), env, r, commands)
    ensures r.Downloaded? ==>
      commands == DownloadPlan(id, maxHeight, template, url) && forall k :: 0 <= k < |commands| ==> env.exitCode(commands[k]) == 0
    ensures forall k :: 0 <= k < |commands| && env.exitCode(commands[k]) != 0 && !commands[k].CheckAvailable? ==>
      && k == |commands| - 1
      && r == DownloadError("Failed to download video: " + env.stderr(commands[k]),
                            CalledProcessError(Argv(commands[k]), env.exitCode(commands[k])),
                            Some(env.stderr(commands[k])))
  {
    RanUntilFailureLast(DownloadPlan(id, maxHeight, template, url), env.exitCode, commands);
  }
}
