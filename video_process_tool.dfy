/** components/video_process_tool.py: the tools that cut frames out of a video,
    read a transcript sidecar, assemble frames into a slideshow video and pull
    the audio track out of a video. Every ffmpeg and ffprobe run, every
    existence test and the directory listing are oracle parameters; what is
    modelled is the text built around them and the decisions taken on their
    outcomes. */
module FrameTools {
  import opened Common
  import opened PyText
  import opened PosixPath

  // ======================================================== timestamps

  /** One entry of `timestamps` in seconds: `M:S` is `int(M) * 60 + int(S)`
      and anything else goes to `int()` whole; `int()` raising is the error. */
  function ParseTimestamp(ts: string): Result<int>
  {
    var parts := Split(ts, ':');
    if |parts| == 2 then
      match ParseInt(parts[0])
      case None => Err(InvalidLiteral(parts[0]))
      case Some(m) =>
        match ParseInt(parts[1])
        case None => Err(InvalidLiteral(parts[1]))
        case Some(s) => Ok(m * 60 + s)
    else
      match ParseInt(ts)
      case None => Err(InvalidLiteral(ts))
      case Some(n) => Ok(n)
  }

  /** A timestamp made of two convertible parts reads as minutes and seconds. */
  lemma ParseTimestampOfParts(ts: string, a: string, b: string, m: int, s: int)
    requires Split(ts, ':') == [a, b] && ParseInt(a) == Some(m) && ParseInt(b) == Some(s)
    ensures ParseTimestamp(ts).Ok? && ParseTimestamp(ts).value == m * 60 + s
  {
    var parts := Split(ts, ':');
    assert parts[0] == a && parts[1] == b;
  }

  /** `str(m) + ":" + str(s)` reads back as `m * 60 + s`. */
  lemma ParseTimestampTwoParts(m: int, s: int)
    ensures ParseTimestamp(IntToString(m) + ":" + IntToString(s)).Ok?
    ensures ParseTimestamp(IntToString(m) + ":" + IntToString(s)).value == m * 60 + s
  {
    var a, b := IntToString(m), IntToString(s);
    var t := a + ":" + b;
    assert Split(t, ':') == [a, b] by {
      assert t == a + [':'] + b;
      SplitAround(a, b, ':');
      SplitNoSep(a, ':');
      SplitNoSep(b, ':');
    }
    assert ParseInt(a) == Some(m) by { ParseIntOfIntToString(m); }
    assert ParseInt(b) == Some(s) by { ParseIntOfIntToString(s); }
    ParseTimestampOfParts(t, a, b, m, s);
  }

  /** A plain number of seconds reads back as itself. */
  lemma ParseTimestampOnePart(n: int)
    ensures ParseTimestamp(IntToString(n)).Ok? && ParseTimestamp(IntToString(n)).value == n
  {
    SplitNoSep(IntToString(n), ':');
    ParseIntOfIntToString(n);
  }

  /** `int()` accepts digit grouping, so a minutes field written `1_0`
      counts as ten minutes: `1_0:30` is 630 seconds. */
  lemma ParseTimestampGroupedMinutes(a: string, b: string, s: int)
    requires |a| > 0 && AllDigits(a) && |b| > 0 && AllDigits(b)
    ensures ParseTimestamp(a + "_" + b + ":" + IntToString(s)).Ok?
    ensures ParseTimestamp(a + "_" + b + ":" + IntToString(s)).value == DigitsValue(a + b) * 60 + s
  {
    var m, c := a + "_" + b, IntToString(s);
    var t := m + ":" + c;
    assert Split(t, ':') == [m, c] by {
      assert t == m + [':'] + c;
      assert ':' !in m by { DigitsExclude(a, ':'); DigitsExclude(b, ':'); }
      SplitAround(m, c, ':');
      SplitNoSep(m, ':');
      SplitNoSep(c, ':');
    }
    ParseIntGrouped(a, b);
    ParseIntOfIntToString(s);
    ParseTimestampOfParts(t, m, c, DigitsValue(a + b), s);
  }

  /** A timestamp with a colon that does not split into exactly two parts
      (`1:2:3`, say) is refused: `int()` does not accept a colon. */
  lemma ParseTimestampColons(ts: string)
    requires ':' in ts && |Split(ts, ':')| != 2
    ensures ParseTimestamp(ts).Err?
  {
    ParseIntRejects(ts, IndexOf(ts, ':'));
  }

  /** The conversion loop (lines 35-43): every entry in order, stopping at the
      first one that raises; TryMapSpec says what that outcome is. */
  method ParseTimestamps(timestamps: seq<string>) returns (r: Result<seq<int>>)
    ensures r == TryMap(ParseTimestamp, timestamps)
  {
    var secs: seq<int> := [];
    var i := 0;
    while i < |timestamps|
      invariant 0 <= i <= |timestamps|
      invariant TryMap(ParseTimestamp, timestamps[..i]) == Ok(secs)
    {
      var p := ParseTimestamp(timestamps[i]);
      if p.Err? {
        assert timestamps[..i + 1][..i] == timestamps[..i];
        assert TryMap(ParseTimestamp, timestamps[..i + 1]) == Err(p.error);
        TryMapErrExtends(ParseTimestamp, timestamps, i + 1);
        return Err(p.error);
      }
      TryMapStep(ParseTimestamp, timestamps, i);
      secs := secs + [p.value];
      i := i + 1;
    }
    assert timestamps[..i] == timestamps;
    r := Ok(secs);
  }

  // ==================================================== frame file names

  /** `frame_{i+1:02d}_{seconds}s.jpg` (line 48). */
  function FrameFileName(i: nat, seconds: int): string
  {
    "frame_" + ZeroPad2(i + 1) + "_" + IntToString(seconds) + "s.jpg"
  }

  /** `<dirname(video)>/<stem>_frames`, used when no output_dir is given (lines 27-29). */
  function DefaultFramesDir(videoPath: string): (d: string)
    ensures Basename(d) == Stem(videoPath) + "_frames"
  {
    BasenameOfJoin(Dirname(videoPath), Stem(videoPath) + "_frames");
    Join(Dirname(videoPath), Stem(videoPath) + "_frames")
  }

  function FramesDir(videoPath: string, outputDir: Option<string>): string
  {
    match outputDir
    case Some(d) => d
    case None => DefaultFramesDir(videoPath)
  }

  function FramePath(dir: string, i: nat, seconds: int): string
  {
    Join(dir, FrameFileName(i, seconds))
  }

  /** The ffmpeg command that grabs one frame (lines 50-58). */
  function GrabCommand(videoPath: string, seconds: int, outputFile: string): seq<string>
  {
    ["ffmpeg", "-ss", IntToString(seconds), "-i", videoPath, "-vframes", "1", "-q:v", "2", outputFile, "-y"]
  }

  function GrabAt(videoPath: string, dir: string, i: nat, seconds: int): seq<string>
  {
    GrabCommand(videoPath, seconds, FramePath(dir, i, seconds))
  }

  /** The grab commands for the first `|secs|` timestamps, one per frame, in order. */
  function GrabCommands(videoPath: string, dir: string, secs: seq<int>): (cmds: seq<seq<string>>)
    ensures |cmds| == |secs|
  {
    MapIndexed((i: nat, seconds: int) => GrabAt(videoPath, dir, i, seconds), secs)
  }

  /** Command `k` grabs frame `k` at its own seconds into its own file. */
  lemma GrabCommandsAt(videoPath: string, dir: string, secs: seq<int>, k: nat)
    requires k < |secs|
    ensures GrabCommands(videoPath, dir, secs)[k] == GrabAt(videoPath, dir, k, secs[k])
  {
    MapIndexedAt((i: nat, seconds: int) => GrabAt(videoPath, dir, i, seconds), secs, k);
  }

  /** One more step of the loop that GrabCommands describes. */
  lemma GrabCommandsStep(videoPath: string, dir: string, secs: seq<int>, i: nat)
    requires i < |secs|
    ensures GrabCommands(videoPath, dir, secs[..i + 1])
         == GrabCommands(videoPath, dir, secs[..i]) + [GrabAt(videoPath, dir, i, secs[i])]
  {
    MapIndexedStep((j: nat, seconds: int) => GrabAt(videoPath, dir, j, seconds), secs, i);
  }

  // ------------------------------------------ reading the seconds back

  /** The end of the run of digits that starts at `p`. */
  function DigitRunEnd(s: string, p: nat): (q: nat)
    requires p <= |s|
    ensures p <= q <= |s|
    ensures forall k :: p <= k < q ==> IsDigit(s[k])
    ensures q == |s| || !IsDigit(s[q])
    decreases |s| - p
  {
    if p < |s| && IsDigit(s[p]) then DigitRunEnd(s, p + 1) else p
  }

  /** The regular expression `(\d+)s\.` tried at position `p`: greedy digits
      then `s.`; backing off to fewer digits cannot help, since the character
      after a shorter run is a digit. */
  function SecondsGroupAt(s: string, p: nat): Option<string>
    requires p <= |s|
  {
    if p < |s| && IsDigit(s[p]) then
      var q := DigitRunEnd(s, p);
      if q + 1 < |s| && s[q] == 's' && s[q + 1] == '.' then Some(s[p..q]) else None
    else None
  }

  /** `re.search(r'(\d+)s\.', s)` from position `from`: the group of the
      leftmost match (line 189). */
  function SearchSeconds(s: string, from: nat): Option<string>
    requires from <= |s|
    decreases |s| - from
  {
    if from == |s| then None
    else match SecondsGroupAt(s, from)
      case Some(g) => Some(g)
      case None => SearchSeconds(s, from + 1)
  }

  /** The `timestamp` label of a frame file: the regex group, else `str(i)`
      (lines 189-190; the source computes it and does not use it further). */
  function FrameLabel(frame: string, i: nat): string
  {
    match SearchSeconds(Basename(frame), 0)
    case Some(g) => g
    case None => IntToString(i)
  }

  lemma {:induction false} SearchSkips(s: string, from: nat, to: nat)
    requires from <= to <= |s|
    requires forall p :: from <= p < to ==> SecondsGroupAt(s, p) == None
    ensures SearchSeconds(s, from) == SearchSeconds(s, to)
    decreases |s| - from
  {
    if from < to { SearchSkips(s, from + 1, to); }
  }

  /** The end of a digit run is the first non-digit after it. */
  lemma DigitRunEndAt(s: string, p: nat, q: nat)
    requires p <= q <= |s|
    requires forall k :: p <= k < q ==> IsDigit(s[k])
    requires q == |s| || !IsDigit(s[q])
    ensures DigitRunEnd(s, p) == q
  {
    var e := DigitRunEnd(s, p);
  }

  /** No match of the regular expression starts at or before `m` when no
      `s` occurs up to `m` and `s[m]` is not a digit: any digit run starting
      there ends at or before `m`, on something other than `s`. */
  lemma NoGroupBefore(s: string, m: nat, j: nat)
    requires j <= m < |s| && !IsDigit(s[m])
    requires forall k :: 0 <= k <= m ==> s[k] != 's'
    ensures SecondsGroupAt(s, j) == None
  {
    if IsDigit(s[j]) {
      var q := DigitRunEnd(s, j);
      assert forall k :: j <= k < q ==> IsDigit(s[k]);
      assert q <= m;
    }
  }

  /** The search finds the digits that follow a prefix holding no `s` and
      ending in a non-digit, when `s.` comes right after them. */
  lemma SearchAfterPrefix(pre: string, digits: string, rest: string)
    requires pre != [] && 's' !in pre && !IsDigit(pre[|pre| - 1])
    requires digits != [] && AllDigits(digits)
    requires |rest| >= 2 && rest[0] == 's' && rest[1] == '.'
    ensures SearchSeconds(pre + digits + rest, 0) == Some(digits)
  {
    var name := pre + digits + rest;
    var m := |pre| - 1;
    assert forall k :: 0 <= k <= m ==> name[k] == pre[k];
    forall j | 0 <= j <= m
      ensures SecondsGroupAt(name, j) == None
    {
      NoGroupBefore(name, m, j);
    }
    SearchSkips(name, 0, m + 1);
    var b := |pre| + |digits|;
    assert name[|pre|..b] == digits;
    assert forall k :: |pre| <= k < b ==> IsDigit(name[k]);
    assert name[b] == 's' && name[b + 1] == '.';
    DigitRunEndAt(name, |pre|, b);
  }

  /** A frame file name read by the regular expression gives back its seconds. */
  lemma FrameFileNameSearch(i: nat, seconds: nat)
    ensures SearchSeconds(FrameFileName(i, seconds), 0) == Some(NatToString(seconds))
  {
    var pad, secs := ZeroPad2(i + 1), NatToString(seconds);
    var pre := "frame_" + pad + "_";
    assert FrameFileName(i, seconds) == pre + secs + "s.jpg";
    assert 's' !in pre by { DigitsExclude(pad, 's'); }
    SearchAfterPrefix(pre, secs, "s.jpg");
  }

  /** A frame file name is a single path component. */
  lemma FrameFileNameNoSlash(i: nat, seconds: int)
    ensures '/' !in FrameFileName(i, seconds)
  {
    var pad, secs := ZeroPad2(i + 1), IntToString(seconds);
    assert FrameFileName(i, seconds) == "frame_" + pad + "_" + secs + "s.jpg";
    DigitsExclude(pad, '/');
    if seconds >= 0 {
      DigitsExclude(secs, '/');
    } else {
      DigitsExclude(NatToString(-seconds), '/');
    }
  }

  /** For every frame written with a non-negative number of seconds, the
      regular expression of line 189 reads that number back from its name. */
  lemma FrameNameSecondsRoundTrip(dir: string, i: nat, seconds: nat)
    ensures SearchSeconds(Basename(FramePath(dir, i, seconds)), 0) == Some(NatToString(seconds))
    ensures FrameLabel(FramePath(dir, i, seconds), i) == IntToString(seconds)
    ensures DigitsValue(NatToString(seconds)) == seconds
  {
    FrameFileNameNoSlash(i, seconds);
    BasenameOfJoin(dir, FrameFileName(i, seconds));
    FrameFileNameSearch(i, seconds);
    NatToStringValue(seconds);
  }

  // ============================================= extract_video_frames

  /** The outcome of one ffmpeg frame grab: its exit status and whether the
      output file exists afterwards. */
  datatype Grab = Grab(exitCode: int, written: bool)

  datatype ExtractedFrame = ExtractedFrame(timestamp: string, seconds: int, path: string)

  datatype FramesResult =
    | FramesExtracted(framesDir: string, frames: seq<ExtractedFrame>, totalFrames: nat)
    | FramesFailed(error: PyError, framesDir: string)

  /** The record each timestamp would add to `extracted_frames`. */
  function CandidateFrames(timestamps: seq<string>, secs: seq<int>, dir: string): (c: seq<ExtractedFrame>)
    requires |secs| == |timestamps|
    ensures |c| == |secs|
  {
    seq(|secs|, k requires 0 <= k < |secs| => ExtractedFrame(timestamps[k], secs[k], FramePath(dir, k, secs[k])))
  }

  /** Whether each frame file exists after its grab. */
  function WrittenFlags(videoPath: string, dir: string, secs: seq<int>, ffmpeg: seq<string> -> Grab): (w: seq<bool>)
    ensures |w| == |secs|
  {
    seq(|secs|, k requires 0 <= k < |secs| => ffmpeg(GrabAt(videoPath, dir, k, secs[k])).written)
  }

  /** `extracted_frames` after every grab succeeded: for each timestamp in
      order, its record when its frame file exists (lines 46-67). */
  function KeptFrames(videoPath: string, timestamps: seq<string>, secs: seq<int>, dir: string,
                      ffmpeg: seq<string> -> Grab): (frames: seq<ExtractedFrame>)
    requires |secs| == |timestamps|
    ensures |frames| <= |timestamps|
  {
    if timestamps == [] then []
    else
      var n := |timestamps| - 1;
      KeptFrames(videoPath, timestamps[..n], secs[..n], dir, ffmpeg)
      + (if ffmpeg(GrabAt(videoPath, dir, n, secs[n])).written
         then [ExtractedFrame(timestamps[n], secs[n], FramePath(dir, n, secs[n]))] else [])
  }

  /** One more step of the loop that KeptFrames describes. */
  lemma KeptFramesStep(videoPath: string, timestamps: seq<string>, secs: seq<int>, dir: string,
                       ffmpeg: seq<string> -> Grab, i: nat)
    requires |secs| == |timestamps| && i < |secs|
    ensures KeptFrames(videoPath, timestamps[..i + 1], secs[..i + 1], dir, ffmpeg)
         == KeptFrames(videoPath, timestamps[..i], secs[..i], dir, ffmpeg)
            + (if ffmpeg(GrabAt(videoPath, dir, i, secs[i])).written
               then [ExtractedFrame(timestamps[i], secs[i], FramePath(dir, i, secs[i]))] else [])
  {
    assert secs[..i + 1][..i] == secs[..i];
    assert timestamps[..i + 1][..i] == timestamps[..i];
  }

  /** The kept frames are the candidate records filtered by whether their
      file was written. */
  lemma {:induction false} KeptFramesFilter(videoPath: string, timestamps: seq<string>, secs: seq<int>, dir: string,
                                           ffmpeg: seq<string> -> Grab)
    requires |secs| == |timestamps|
    ensures KeptFrames(videoPath, timestamps, secs, dir, ffmpeg)
         == Filter(CandidateFrames(timestamps, secs, dir), WrittenFlags(videoPath, dir, secs, ffmpeg))
  {
    if timestamps != [] {
      var n := |timestamps| - 1;
      KeptFramesFilter(videoPath, timestamps[..n], secs[..n], dir, ffmpeg);
      var c, w := CandidateFrames(timestamps, secs, dir), WrittenFlags(videoPath, dir, secs, ffmpeg);
      assert c[..n] == CandidateFrames(timestamps[..n], secs[..n], dir);
      assert w[..n] == WrittenFlags(videoPath, dir, secs[..n], ffmpeg);
    }
  }

  /** The reported frames are at most one per timestamp, keep the timestamp
      order, and are exactly those whose file was written, each named by its
      own position and seconds. */
  lemma KeptFramesSpec(videoPath: string, timestamps: seq<string>, secs: seq<int>, dir: string,
                       ffmpeg: seq<string> -> Grab)
    requires |secs| == |timestamps|
    ensures var frames := KeptFrames(videoPath, timestamps, secs, dir, ffmpeg);
            var idx := Selected(WrittenFlags(videoPath, dir, secs, ffmpeg));
            && |frames| == |idx| <= |timestamps|
            && (forall k :: 0 <= k < |frames| ==>
                  idx[k] < |timestamps|
                  && ffmpeg(GrabAt(videoPath, dir, idx[k], secs[idx[k]])).written
                  && frames[k] == ExtractedFrame(timestamps[idx[k]], secs[idx[k]], FramePath(dir, idx[k], secs[idx[k]])))
            && (forall k, l :: 0 <= k < l < |frames| ==> idx[k] < idx[l])
            && (forall i :: 0 <= i < |timestamps| && ffmpeg(GrabAt(videoPath, dir, i, secs[i])).written ==> i in idx)
  {
    KeptFramesFilter(videoPath, timestamps, secs, dir, ffmpeg);
    FilterSelected(CandidateFrames(timestamps, secs, dir), WrittenFlags(videoPath, dir, secs, ffmpeg));
    SelectedBound(WrittenFlags(videoPath, dir, secs, ffmpeg));
  }

  /** What the grab loop reports for converted timestamps `secs` in `dir`:
      the grabs ran in timestamp order, each for its own frame file; success
      means every grab exited with 0 and lists the frames written; failure
      means the last grab run exited non-zero, after every earlier one
      succeeded, and carries that grab's error. */
  predicate GrabsReported(videoPath: string, timestamps: seq<string>, secs: seq<int>, dir: string,
                          ffmpeg: seq<string> -> Grab, r: FramesResult, commands: seq<seq<string>>)
    requires |secs| == |timestamps|
  {
    && r.framesDir == dir
    && |commands| <= |secs| && commands == GrabCommands(videoPath, dir, secs[..|commands|])
    && (r.FramesExtracted? ==>
          && |commands| == |secs|
          && (forall k :: 0 <= k < |commands| ==> ffmpeg(commands[k]).exitCode == 0)
          && r.frames == KeptFrames(videoPath, timestamps, secs, dir, ffmpeg)
          && r.totalFrames == |r.frames|)
    && (r.FramesFailed? ==>
          && commands != []
          && ffmpeg(commands[|commands| - 1]).exitCode != 0
          && r.error == CalledProcessError(commands[|commands| - 1], ffmpeg(commands[|commands| - 1]).exitCode)
          && forall k :: 0 <= k < |commands| - 1 ==> ffmpeg(commands[k]).exitCode == 0)
  }

  /** Every grab command for `secs` exits with 0. */
  predicate GrabsSucceeded(videoPath: string, dir: string, secs: seq<int>, ffmpeg: seq<string> -> Grab)
  {
    forall k :: 0 <= k < |secs| ==> ffmpeg(GrabCommands(videoPath, dir, secs)[k]).exitCode == 0
  }

  /** One more successful grab. */
  lemma GrabsSucceededStep(videoPath: string, dir: string, secs: seq<int>, ffmpeg: seq<string> -> Grab, i: nat)
    requires i < |secs| && GrabsSucceeded(videoPath, dir, secs[..i], ffmpeg)
    requires ffmpeg(GrabAt(videoPath, dir, i, secs[i])).exitCode == 0
    ensures GrabsSucceeded(videoPath, dir, secs[..i + 1], ffmpeg)
  {
    var before := GrabCommands(videoPath, dir, secs[..i]);
    var cmd := GrabAt(videoPath, dir, i, secs[i]);
    GrabCommandsStep(videoPath, dir, secs, i);
    forall k | 0 <= k < i + 1 ensures ffmpeg((before + [cmd])[k]).exitCode == 0 {
      AppendIndex(before, cmd, k);
    }
  }

  /** A grab that exits non-zero after every earlier one succeeded ends the
      loop with that grab's error. */
  lemma GrabFailedReported(videoPath: string, timestamps: seq<string>, secs: seq<int>, dir: string,
                           ffmpeg: seq<string> -> Grab, i: nat)
    requires |secs| == |timestamps| && i < |secs|
    requires GrabsSucceeded(videoPath, dir, secs[..i], ffmpeg)
    requires ffmpeg(GrabAt(videoPath, dir, i, secs[i])).exitCode != 0
    ensures var cmd := GrabAt(videoPath, dir, i, secs[i]);
      GrabsReported(videoPath, timestamps, secs, dir, ffmpeg,
                    FramesFailed(CalledProcessError(cmd, ffmpeg(cmd).exitCode), dir),
                    GrabCommands(videoPath, dir, secs[..i + 1]))
  {
    var before, after := GrabCommands(videoPath, dir, secs[..i]), GrabCommands(videoPath, dir, secs[..i + 1]);
    var cmd := GrabAt(videoPath, dir, i, secs[i]);
    GrabCommandsStep(videoPath, dir, secs, i);
    assert |after| == i + 1 && secs[..i + 1][..i + 1] == secs[..i + 1];
    AppendIndex(before, cmd, i);
    assert after[i] == cmd;
    forall k | 0 <= k < i ensures ffmpeg(after[k]).exitCode == 0 {
      AppendIndex(before, cmd, k);
    }
  }

  /** A loop in which every grab succeeded lists the frames written. */
  lemma GrabsDoneReported(videoPath: string, timestamps: seq<string>, secs: seq<int>, dir: string,
                          ffmpeg: seq<string> -> Grab)
    requires |secs| == |timestamps| && GrabsSucceeded(videoPath, dir, secs, ffmpeg)
    ensures var frames := KeptFrames(videoPath, timestamps, secs, dir, ffmpeg);
      GrabsReported(videoPath, timestamps, secs, dir, ffmpeg, FramesExtracted(dir, frames, |frames|),
                    GrabCommands(videoPath, dir, secs))
  {
    assert secs[..|secs|] == secs;
  }

  /** The grab loop of `extract_video_frames` (lines 46-67) once every
      timestamp is converted. */
  method GrabFrames(videoPath: string, timestamps: seq<string>, secs: seq<int>, dir: string,
                    ffmpeg: seq<string> -> Grab)
    returns (r: FramesResult, commands: seq<seq<string>>)
    requires |secs| == |timestamps|
    ensures GrabsReported(videoPath, timestamps, secs, dir, ffmpeg, r, commands)
  {
    commands := [];
    var frames: seq<ExtractedFrame> := [];
    var i := 0;
    while i < |secs|
      invariant 0 <= i <= |secs|
      invariant commands == GrabCommands(videoPath, dir, secs[..i])
      invariant GrabsSucceeded(videoPath, dir, secs[..i], ffmpeg)
      invariant frames == KeptFrames(videoPath, timestamps[..i], secs[..i], dir, ffmpeg)
    {
      var outputFile := FramePath(dir, i, secs[i]);
      var cmd := GrabAt(videoPath, dir, i, secs[i]);
      var grab := ffmpeg(cmd);
      GrabCommandsStep(videoPath, dir, secs, i);
      commands := commands + [cmd];
      if grab.exitCode != 0 {
        r := FramesFailed(CalledProcessError(cmd, grab.exitCode), dir);
        GrabFailedReported(videoPath, timestamps, secs, dir, ffmpeg, i);
        return;
      }
      GrabsSucceededStep(videoPath, dir, secs, ffmpeg, i);
      KeptFramesStep(videoPath, timestamps, secs, dir, ffmpeg, i);
      if grab.written {
        frames := frames + [ExtractedFrame(timestamps[i], secs[i], outputFile)];
      }
      i := i + 1;
    }
    assert timestamps[..i] == timestamps && secs[..i] == secs;
    r := FramesExtracted(dir, frames, |frames|);
    GrabsDoneReported(videoPath, timestamps, secs, dir, ffmpeg);
  }

  /** `extract_video_frames` (lines 13-81): the frames directory (given, or
      the default beside the video), conversion of every timestamp before
      any grab, then the grabs; a raise anywhere becomes the error result. */
  method ExtractVideoFrames(videoPath: string, timestamps: seq<string>, outputDir: Option<string>,
                            ffmpeg: seq<string> -> Grab)
    returns (r: FramesResult, commands: seq<seq<string>>)
    ensures r.framesDir == FramesDir(videoPath, outputDir)
    ensures TryMap(ParseTimestamp, timestamps).Err? ==>
      r == FramesFailed(TryMap(ParseTimestamp, timestamps).error, FramesDir(videoPath, outputDir)) && commands == []
    ensures TryMap(ParseTimestamp, timestamps).Ok? ==>
      GrabsReported(videoPath, timestamps, TryMap(ParseTimestamp, timestamps).value, FramesDir(videoPath, outputDir),
                    ffmpeg, r, commands)
  {
    var dir := FramesDir(videoPath, outputDir);
    var parsed := ParseTimestamps(timestamps);
    if parsed.Err? {
      r, commands := FramesFailed(parsed.error, dir), [];
      return;
    }
    r, commands := GrabFrames(videoPath, timestamps, parsed.value, dir, ffmpeg);
  }

  // ================================================= the concat script

  /** One line of the ffmpeg concat script. */
  datatype ScriptLine = File(path: string) | Duration(seconds: int) | Outpoint(time: int)

  /** The text written for a line (lines 204-210), before its newline. */
  function Render(line: ScriptLine): string
  {
    match line
    case File(p) => "file '" + p + "'"
    case Duration(d) => "duration " + IntToString(d)
    case Outpoint(t) => "outpoint " + IntToString(t)
  }

  /** The script file's content: every line followed by a newline. */
  function ScriptText(lines: seq<ScriptLine>): string
  {
    if lines == [] then [] else ScriptText(lines[..|lines| - 1]) + Render(lines[|lines| - 1]) + "\n"
  }

  /** The lines written for frame `i` of `n` (lines 195-210): its file and
      duration, and with transitions an outpoint at its end time unless it
      is the last frame. */
  function FrameBlock(frame: string, i: nat, n: nat, d: int, transitions: bool): seq<ScriptLine>
  {
    [File(frame), Duration(d)] + (if transitions && i + 1 < n then [Outpoint((i + 1) * d)] else [])
  }

  /** The script lines for the first `k` frames. */
  function ScriptLines(frames: seq<string>, k: nat, d: int, transitions: bool): seq<ScriptLine>
    requires k <= |frames|
  {
    if k == 0 then []
    else ScriptLines(frames, k - 1, d, transitions) + FrameBlock(frames[k - 1], k - 1, |frames|, d, transitions)
  }

  /** The whole concat script. */
  function ConcatScript(frames: seq<string>, d: int, transitions: bool): seq<ScriptLine>
  {
    ScriptLines(frames, |frames|, d, transitions)
  }

  /** Where the block of frame `i` starts: every earlier block has three
      lines with transitions (none of them is the last) and two without. */
  function BlockStart(i: nat, transitions: bool): nat
  {
    if transitions then 3 * i else 2 * i
  }

  lemma {:induction false} ScriptLinesLength(frames: seq<string>, k: nat, d: int, transitions: bool)
    requires k <= |frames|
    ensures |ScriptLines(frames, k, d, transitions)|
         == if transitions && k == |frames| && k > 0 then 3 * k - 1 else BlockStart(k, transitions)
  {
    if k > 0 {
      ScriptLinesLength(frames, k - 1, d, transitions);
    }
  }

  /** Adding frames only appends lines. */
  lemma {:induction false} ScriptLinesPrefix(frames: seq<string>, j: nat, k: nat, d: int, transitions: bool)
    requires j <= k <= |frames|
    ensures ScriptLines(frames, j, d, transitions) <= ScriptLines(frames, k, d, transitions)
    decreases k - j
  {
    if j < k {
      ScriptLinesPrefix(frames, j, k - 1, d, transitions);
    }
  }

  /** The block of frame `i` sits at BlockStart(i) once frame `i` is written. */
  lemma ScriptLinesBlock(frames: seq<string>, k: nat, d: int, transitions: bool, i: nat)
    requires i < k <= |frames|
    ensures var lines, b := ScriptLines(frames, k, d, transitions), BlockStart(i, transitions);
            var block := FrameBlock(frames[i], i, |frames|, d, transitions);
            b + |block| <= |lines| && lines[b..b + |block|] == block
  {
    var lines, b := ScriptLines(frames, k, d, transitions), BlockStart(i, transitions);
    var prev := ScriptLines(frames, i, d, transitions);
    var block := FrameBlock(frames[i], i, |frames|, d, transitions);
    assert prev + block == ScriptLines(frames, i + 1, d, transitions);
    assert |prev| == b by { ScriptLinesLength(frames, i, d, transitions); }
    assert prev + block <= lines by { ScriptLinesPrefix(frames, i + 1, k, d, transitions); }
    assert lines[b..b + |block|] == (prev + block)[b..];
  }

  /** The concat script has, for each frame in order, its `file` line and its
      `duration` line, and with transitions an `outpoint` at `(i+1)*d` after
      every frame but the last: 3n-1 lines with transitions, 2n without. */
  lemma ConcatScriptShape(frames: seq<string>, d: int, transitions: bool)
    ensures |ConcatScript(frames, d, transitions)|
         == if transitions && |frames| > 0 then 3 * |frames| - 1 else 2 * |frames|
    ensures forall i :: 0 <= i < |frames| ==>
      var lines, b := ConcatScript(frames, d, transitions), BlockStart(i, transitions);
      && b + 1 < |lines|
      && lines[b] == File(frames[i])
      && lines[b + 1] == Duration(d)
      && (transitions && i + 1 < |frames| ==> b + 2 < |lines| && lines[b + 2] == Outpoint((i + 1) * d))
  {
    ScriptLinesLength(frames, |frames|, d, transitions);
    forall i | 0 <= i < |frames|
      ensures var lines, b := ConcatScript(frames, d, transitions), BlockStart(i, transitions);
        && b + 1 < |lines|
        && lines[b] == File(frames[i])
        && lines[b + 1] == Duration(d)
        && (transitions && i + 1 < |frames| ==> b + 2 < |lines| && lines[b + 2] == Outpoint((i + 1) * d))
    {
      ScriptLinesBlock(frames, |frames|, d, transitions, i);
      var lines, b := ConcatScript(frames, d, transitions), BlockStart(i, transitions);
      var block := FrameBlock(frames[i], i, |frames|, d, transitions);
      assert lines[b] == block[0] && lines[b + 1] == block[1];
      if transitions && i + 1 < |frames| {
        assert lines[b + 2] == block[2];
      }
    }
  }

  /** The loop that writes the script (lines 186-210), one line per write. */
  method WriteConcatScript(frames: seq<string>, d: int, transitions: bool) returns (lines: seq<ScriptLine>)
    ensures lines == ConcatScript(frames, d, transitions)
  {
    lines := [];
    var i := 0;
    while i < |frames|
      invariant 0 <= i <= |frames|
      invariant lines == ScriptLines(frames, i, d, transitions)
    {
      lines := lines + [File(frames[i]), Duration(d)];
      if transitions && i < |frames| - 1 {
        lines := lines + [Outpoint((i + 1) * d)];
      }
      i := i + 1;
    }
  }

  // ================================================= drawtext overlays

  /** What `.replace("'", "\\'").replace(":", "\\:")` does to one character. */
  function EscapeChar(c: char): string
  {
    if c == '\'' then "\\'" else if c == ':' then "\\:" else [c]
  }

  /** `s.replace(c, repl)`. */
  function ReplaceChar(s: string, c: char, repl: string): (r: string)
    ensures c !in repl ==> c !in r
  {
    if s == [] then [] else (if s[0] == c then repl else [s[0]]) + ReplaceChar(s[1..], c, repl)
  }

  /** The escaping of overlay text (line 246). */
  function Escape(text: string): string
  {
    ReplaceChar(ReplaceChar(text, '\'', "\\'"), ':', "\\:")
  }

  /** Escaping character by character. */
  function EscapeEach(text: string): string
  {
    if text == [] then [] else EscapeChar(text[0]) + EscapeEach(text[1..])
  }

  lemma {:induction false} ReplaceConcat(a: string, b: string, c: char, repl: string)
    ensures ReplaceChar(a + b, c, repl) == ReplaceChar(a, c, repl) + ReplaceChar(b, c, repl)
    decreases |a|
  {
    if a != [] {
      assert (a + b)[0] == a[0] && (a + b)[1..] == a[1..] + b;
      ReplaceConcat(a[1..], b, c, repl);
      var h := if a[0] == c then repl else [a[0]];
      assert ReplaceChar(a + b, c, repl) == h + ReplaceChar(a[1..] + b, c, repl);
      assert ReplaceChar(a, c, repl) == h + ReplaceChar(a[1..], c, repl);
    } else {
      assert a + b == b;
    }
  }

  /** The chained replacements on the text of one character. */
  lemma EscapeOne(c: char)
    ensures ReplaceChar(if c == '\'' then "\\'" else [c], ':', "\\:") == EscapeChar(c)
  {
    if c == '\'' {
      var q := "\\'";
      assert q == ['\\'] + ['\''];
      ReplaceConcat(['\\'], ['\''], ':', "\\:");
    }
  }

  /** The two chained replacements are the same as escaping each character:
      the first inserts no colon for the second to rewrite. */
  lemma {:induction false} EscapeIsEach(text: string)
    ensures Escape(text) == EscapeEach(text)
  {
    if text != [] {
      EscapeIsEach(text[1..]);
      var head := if text[0] == '\'' then "\\'" else [text[0]];
      var rest := ReplaceChar(text[1..], '\'', "\\'");
      assert ReplaceChar(text, '\'', "\\'") == head + rest;
      ReplaceConcat(head, rest, ':', "\\:");
      EscapeOne(text[0]);
    }
  }

  /** Reading an escaped text back: a backslash before a quote or a colon is
      dropped. */
  function Unescape(s: string): string
    decreases |s|
  {
    if s == [] then []
    else if |s| >= 2 && s[0] == '\\' && (s[1] == '\'' || s[1] == ':') then [s[1]] + Unescape(s[2..])
    else [s[0]] + Unescape(s[1..])
  }

  /** Escaping loses nothing: the overlay text can be read back exactly. */
  lemma {:induction false} EscapeRoundTrip(text: string)
    ensures Unescape(Escape(text)) == text
  {
    EscapeIsEach(text);
    EachRoundTrip(text);
  }

  lemma {:induction false} EachRoundTrip(text: string)
    ensures Unescape(EscapeEach(text)) == text
    decreases |text|
  {
    if text != [] {
      var c, rest := text[0], EscapeEach(text[1..]);
      EachRoundTrip(text[1..]);
      var e := EscapeEach(text);
      assert e == EscapeChar(c) + rest;
      if c == '\'' || c == ':' {
        assert e[2..] == rest;
      } else {
        assert e[1..] == rest;
        if c == '\\' && rest != [] {
          // the next character is itself escaped or plain, never a bare quote or colon
          assert rest[0] != '\'' && rest[0] != ':' by { EachHead(text[1..]); }
        }
      }
    }
  }

  lemma EachHead(text: string)
    requires text != []
    ensures EscapeEach(text) != [] && EscapeEach(text)[0] != '\'' && EscapeEach(text)[0] != ':'
  {
    assert EscapeEach(text) == EscapeChar(text[0]) + EscapeEach(text[1..]);
  }

  /** In the escaped text every quote and every colon comes right after a
      backslash. */
  lemma {:induction false} EscapeGuards(text: string)
    ensures forall k :: 0 <= k < |Escape(text)| && Escape(text)[k] in "':" ==> k > 0 && Escape(text)[k - 1] == '\\'
  {
    EscapeIsEach(text);
    EachGuards(text);
  }

  lemma {:induction false} EachGuards(text: string)
    ensures forall k :: 0 <= k < |EscapeEach(text)| && EscapeEach(text)[k] in "':" ==> k > 0 && EscapeEach(text)[k - 1] == '\\'
    decreases |text|
  {
    if text != [] {
      EachGuards(text[1..]);
      var head, rest := EscapeChar(text[0]), EscapeEach(text[1..]);
      var e := EscapeEach(text);
      assert e == head + rest;
      forall k | 0 <= k < |e| && e[k] in "':"
        ensures k > 0 && e[k - 1] == '\\'
      {
        if k >= |head| {
          assert e[k] == rest[k - |head|];
          if k - |head| > 0 {
            assert e[k - 1] == rest[k - |head| - 1];
          }
        }
      }
    }
  }

  /** A text overlay entry: a dictionary of strings. */
  type Overlay = map<string, string>

  /** `overlay.get("text", "")`. */
  function OverlayText(o: Overlay): string
  {
    if "text" in o then o["text"] else ""
  }

  /** One drawtext filter: escaped text shown from `start` to `end` seconds. */
  datatype Drawtext = Drawtext(text: string, start: int, end: int)

  /** The filter text built at lines 249-252. */
  function RenderDrawtext(f: Drawtext): string
  {
    "drawtext=text='" + f.text + "':fontcolor=white:fontsize=24:box=1:boxcolor=black@0.5:"
    + "boxborderw=5:x=(w-text_w)/2:y=h-text_h-20:enable='between(t," + IntToString(f.start) + ","
    + IntToString(f.end) + ")'"
  }

  /** The filter for overlay `i`, shown while frame `i` is. */
  function OverlayFilter(o: Overlay, i: nat, d: int): Drawtext
  {
    Drawtext(Escape(OverlayText(o)), i * d, (i + 1) * d)
  }

  /** The filters for the first `k` overlays: one per overlay with text. */
  function FiltersUpTo(overlays: seq<Overlay>, k: nat, d: int): seq<Drawtext>
    requires k <= |overlays|
  {
    if k == 0 then []
    else FiltersUpTo(overlays, k - 1, d)
         + (if OverlayText(overlays[k - 1]) != "" then [OverlayFilter(overlays[k - 1], k - 1, d)] else [])
  }

  /** `filter_complex` (lines 233-252): overlays past the last frame are not
      looked at, and overlays without text give no filter. */
  function DrawtextFilters(overlays: seq<Overlay>, totalFrames: nat, d: int): seq<Drawtext>
  {
    FiltersUpTo(overlays, if |overlays| < totalFrames then |overlays| else totalFrames, d)
  }

  function OverlayCandidates(overlays: seq<Overlay>, d: int): (c: seq<Drawtext>)
    ensures |c| == |overlays|
  {
    seq(|overlays|, i requires 0 <= i < |overlays| => OverlayFilter(overlays[i], i, d))
  }

  function HasText(overlays: seq<Overlay>): (keep: seq<bool>)
    ensures |keep| == |overlays|
  {
    seq(|overlays|, i requires 0 <= i < |overlays| => OverlayText(overlays[i]) != "")
  }

  lemma {:induction false} FiltersUpToFilter(overlays: seq<Overlay>, k: nat, d: int)
    requires k <= |overlays|
    ensures FiltersUpTo(overlays, k, d) == Filter(OverlayCandidates(overlays, d)[..k], HasText(overlays)[..k])
  {
    if k > 0 {
      FiltersUpToFilter(overlays, k - 1, d);
      FilterStep(OverlayCandidates(overlays, d), HasText(overlays), k - 1);
    }
  }

  /** A filter is produced exactly for each overlay index below both the
      number of overlays and the number of frames whose text is non-empty;
      it carries that text escaped and is enabled from `i*d` to `(i+1)*d`. */
  lemma DrawtextFiltersSpec(overlays: seq<Overlay>, totalFrames: nat, d: int, f: Drawtext)
    ensures f in DrawtextFilters(overlays, totalFrames, d) <==>
      exists i :: 0 <= i < |overlays| && i < totalFrames && OverlayText(overlays[i]) != ""
                  && f == Drawtext(Escape(OverlayText(overlays[i])), i * d, (i + 1) * d)
  {
    var m := if |overlays| < totalFrames then |overlays| else totalFrames;
    var c, keep := OverlayCandidates(overlays, d)[..m], HasText(overlays)[..m];
    FiltersUpToFilter(overlays, m, d);
    FilterMembership(c, keep, f);
    assert forall i :: 0 <= i < m ==>
      keep[i] == (OverlayText(overlays[i]) != "") && c[i] == OverlayFilter(overlays[i], i, d);
  }

  /** The filters keep overlay order: the `k`-th filter comes from the
      `k`-th overlay with text. */
  lemma DrawtextFiltersOrder(overlays: seq<Overlay>, totalFrames: nat, d: int)
    ensures var m := if |overlays| < totalFrames then |overlays| else totalFrames;
            var fs, idx := DrawtextFilters(overlays, totalFrames, d), Selected(HasText(overlays)[..m]);
            && |fs| == |idx| <= m
            && (forall k :: 0 <= k < |fs| ==> idx[k] < m && fs[k] == OverlayFilter(overlays[idx[k]], idx[k], d))
            && (forall k, l :: 0 <= k < l < |fs| ==> idx[k] < idx[l])
  {
    var m := if |overlays| < totalFrames then |overlays| else totalFrames;
    FiltersUpToFilter(overlays, m, d);
    FilterSelected(OverlayCandidates(overlays, d)[..m], HasText(overlays)[..m]);
    SelectedBound(HasText(overlays)[..m]);
  }

  /** The overlay loop (lines 233-252): stop at the first overlay past the
      last frame, skip overlays without text, escape and append the rest. */
  method BuildDrawtextFilters(overlays: seq<Overlay>, totalFrames: nat, d: int) returns (filters: seq<Drawtext>)
    ensures filters == DrawtextFilters(overlays, totalFrames, d)
  {
    filters := [];
    var i := 0;
    while i < |overlays|
      invariant 0 <= i <= |overlays| && i <= totalFrames
      invariant filters == FiltersUpTo(overlays, i, d)
    {
      if i >= totalFrames {
        break;
      }
      var text := OverlayText(overlays[i]);
      if text == "" {
        i := i + 1;
        continue;
      }
      text := Escape(text);
      filters := filters + [Drawtext(text, i * d, (i + 1) * d)];
      i := i + 1;
    }
  }

  // ===================================================== choosing frames

  /** Whether `glob` lets a directory entry through the pattern `"*" + ext`:
      it ends in `ext` and is not hidden. */
  predicate GlobMatch(name: string, ext: string)
  {
    EndsWith(name, ext) && !(name != [] && name[0] == '.')
  }

  /** The directory part `glob` splits off `join(dir, "*" + ext)` and joins
      each matching entry back onto. */
  function GlobBase(dir: string, ext: string): string
  {
    Dirname(Join(dir, "*" + ext))
  }

  /** `glob.glob(os.path.join(dir, "*" + ext))` over the directory listing
      `names`, in listing order. */
  function Glob(dir: string, names: seq<string>, ext: string): (paths: seq<string>)
    ensures |paths| <= |names|
  {
    Filter(seq(|names|, i requires 0 <= i < |names| => Join(GlobBase(dir, ext), names[i])),
           seq(|names|, i requires 0 <= i < |names| => GlobMatch(names[i], ext)))
  }

  /** A path is globbed exactly when it is a matching entry joined to the
      pattern's directory. */
  lemma GlobSpec(dir: string, names: seq<string>, ext: string, p: string)
    ensures p in Glob(dir, names, ext) <==>
      exists i :: 0 <= i < |names| && GlobMatch(names[i], ext) && p == Join(GlobBase(dir, ext), names[i])
  {
    var items := seq(|names|, i requires 0 <= i < |names| => Join(GlobBase(dir, ext), names[i]));
    var keep := seq(|names|, i requires 0 <= i < |names| => GlobMatch(names[i], ext));
    FilterMembership(items, keep, p);
    if p in Glob(dir, names, ext) {
      var i :| 0 <= i < |items| && keep[i] && items[i] == p;
      assert GlobMatch(names[i], ext) && p == Join(GlobBase(dir, ext), names[i]);
    }
    if exists i :: 0 <= i < |names| && GlobMatch(names[i], ext) && p == Join(GlobBase(dir, ext), names[i]) {
      var i :| 0 <= i < |names| && GlobMatch(names[i], ext) && p == Join(GlobBase(dir, ext), names[i]);
      assert keep[i] && items[i] == p;
    }
  }

  /** Nothing is globbed exactly when no entry matches. */
  lemma GlobEmpty(dir: string, names: seq<string>, ext: string)
    ensures Glob(dir, names, ext) == [] <==> forall i :: 0 <= i < |names| ==> !GlobMatch(names[i], ext)
  {
    var items := seq(|names|, i requires 0 <= i < |names| => Join(GlobBase(dir, ext), names[i]));
    var keep := seq(|names|, i requires 0 <= i < |names| => GlobMatch(names[i], ext));
    assert Glob(dir, names, ext) == Filter(items, keep);
    FilterEmpty(items, keep);
    assert forall i :: 0 <= i < |names| ==> keep[i] == GlobMatch(names[i], ext);
  }

  /** `frames` (lines 167-169): the sorted jpg paths, or the sorted png paths
      when there is no jpg. */
  function ChosenFrames(dir: string, names: seq<string>): seq<string>
  {
    var jpgs := SortLex(Glob(dir, names, ".jpg"));
    if jpgs != [] then jpgs else SortLex(Glob(dir, names, ".png"))
  }

  /** The chosen frames are sorted; they are the jpgs whenever one exists and
      the pngs otherwise; and there are none exactly when the listing holds
      neither a jpg nor a png. */
  lemma ChosenFramesSpec(dir: string, names: seq<string>)
    ensures SortedLex(ChosenFrames(dir, names))
    ensures (exists i :: 0 <= i < |names| && GlobMatch(names[i], ".jpg")) ==>
      multiset(ChosenFrames(dir, names)) == multiset(Glob(dir, names, ".jpg"))
    ensures (forall i :: 0 <= i < |names| ==> !GlobMatch(names[i], ".jpg")) ==>
      multiset(ChosenFrames(dir, names)) == multiset(Glob(dir, names, ".png"))
    ensures ChosenFrames(dir, names) == [] <==>
      forall i :: 0 <= i < |names| ==> !GlobMatch(names[i], ".jpg") && !GlobMatch(names[i], ".png")
  {
    GlobEmpty(dir, names, ".jpg");
    GlobEmpty(dir, names, ".png");
    var jpgs, pngs := Glob(dir, names, ".jpg"), Glob(dir, names, ".png");
    assert jpgs == [] <==> |multiset(SortLex(jpgs))| == 0;
    assert pngs == [] <==> |multiset(SortLex(pngs))| == 0;
  }

  // ============================================== what ffprobe reports

  /** One entry of ffprobe's `streams` list. */
  type Stream = map<string, JsonScalar>

  /** ffprobe's standard output, as `json.loads` sees it: not JSON (with the
      decoder's message), or an object with or without a `streams` list. */
  datatype ProbeOutput = NotJson(message: string) | Probed(streams: Option<seq<Stream>>)

  /** `info_json.get("streams", [{}])[0]`. */
  function FirstStream(out: ProbeOutput): Result<Stream>
  {
    match out
    case NotJson(m) => Err(Raised(m))
    case Probed(None) => Ok(map[])
    case Probed(Some(ss)) => if ss == [] then Err(Raised("list index out of range")) else Ok(ss[0])
  }

  /** `stream_info.get(key, default)`. */
  function Get(s: Stream, key: string, default: JsonScalar): JsonScalar
  {
    if key in s then s[key] else default
  }

  /** `int(v)`: an integer as is, a string by Python's integer syntax. */
  function IntOf(v: JsonScalar): Result<int>
  {
    match v
    case JInt(n) => Ok(n)
    case JText(s) =>
      match ParseInt(s)
      case Some(n) => Ok(n)
      case None => Err(InvalidLiteral(s))
  }

  /** A Python float as `int()` sees it: a finite value, kept as its
      truncation toward zero, an infinity of either sign, or NaN. */
  datatype PyFloat = Finite(truncated: int) | Infinite | NotANumber

  /** `float(v)`: an integer converts as is; a string goes to `parseFloat`,
      Python's float syntax, which may raise. */
  function FloatOf(v: JsonScalar, parseFloat: string -> Result<PyFloat>): Result<PyFloat>
  {
    match v
    case JInt(n) => Ok(Finite(n))
    case JText(s) => parseFloat(s)
  }

  /** `int(x)` of a float: truncation toward zero; an infinity raises
      OverflowError and NaN raises ValueError. */
  function Truncate(x: PyFloat): (r: Result<int>)
    ensures r.Ok? <==> x.Finite?
    ensures x.Finite? ==> r.value == x.truncated
    ensures x.Infinite? ==> r == Err(Raised("cannot convert float infinity to integer"))
    ensures x.NotANumber? ==> r == Err(Raised("cannot convert float NaN to integer"))
  {
    match x
    case Finite(n) => Ok(n)
    case Infinite => Err(Raised("cannot convert float infinity to integer"))
    case NotANumber => Err(Raised("cannot convert float NaN to integer"))
  }

  /** An integer field that ffprobe prints as a string reads back as that
      integer, and a missing field gives the default. */
  lemma IntOfText(n: int)
    ensures IntOf(JText(IntToString(n))).Ok? && IntOf(JText(IntToString(n))).value == n
  {
    ParseIntOfIntToString(n);
  }

  datatype VideoInfo = VideoInfo(duration: int, frameCount: int, width: JsonScalar, height: JsonScalar)

  /** Lines 285-289 and 301: the first stream's width and height, its
      duration through `float()` and its frame count through `int()`, each
      defaulting when missing; the duration is truncated by `int()` only
      when the result is built. The first conversion that raises is the
      error. */
  function ReadVideoInfo(out: ProbeOutput, totalFrames: nat, totalDuration: int,
                         parseFloat: string -> Result<PyFloat>): Result<VideoInfo>
  {
    match FirstStream(out)
    case Err(e) => Err(e)
    case Ok(s) =>
      match FloatOf(Get(s, "duration", JInt(totalDuration)), parseFloat)
      case Err(e) => Err(e)
      case Ok(duration) =>
        match IntOf(Get(s, "nb_frames", JInt(totalFrames)))
        case Err(e) => Err(e)
        case Ok(count) =>
          match Truncate(duration)
          case Err(e) => Err(e)
          case Ok(seconds) => Ok(VideoInfo(seconds, count, Get(s, "width", JInt(0)), Get(s, "height", JInt(0))))
  }

  /** Without a `streams` key every field takes its default: the planned
      duration and frame count, and zero width and height; an empty
      `streams` list raises instead. */
  lemma ReadVideoInfoDefaults(totalFrames: nat, totalDuration: int, parseFloat: string -> Result<PyFloat>)
    ensures ReadVideoInfo(Probed(None), totalFrames, totalDuration, parseFloat)
         == Ok(VideoInfo(totalDuration, totalFrames, JInt(0), JInt(0)))
    ensures ReadVideoInfo(Probed(Some([])), totalFrames, totalDuration, parseFloat)
         == Err(Raised("list index out of range"))
  {
  }

  /** A frame count printed as a decimal string is reported as that count. */
  lemma ReadVideoInfoFrameCount(s: Stream, rest: seq<Stream>, totalFrames: nat, totalDuration: int,
                                parseFloat: string -> Result<PyFloat>, n: int)
    requires "nb_frames" in s && s["nb_frames"] == JText(IntToString(n))
    requires FloatOf(Get(s, "duration", JInt(totalDuration)), parseFloat).Ok?
    requires FloatOf(Get(s, "duration", JInt(totalDuration)), parseFloat).value.Finite?
    ensures ReadVideoInfo(Probed(Some([s] + rest)), totalFrames, totalDuration, parseFloat).Ok?
    ensures ReadVideoInfo(Probed(Some([s] + rest)), totalFrames, totalDuration, parseFloat).value.frameCount == n
  {
    assert FirstStream(Probed(Some([s] + rest))) == Ok(s);
    assert Get(s, "nb_frames", JInt(totalFrames)) == JText(IntToString(n));
    IntOfText(n);
  }

  /** Once the duration has gone through `float()`, a frame count that
      `int()` refuses is the error even when the duration is infinite or
      NaN; otherwise the duration's truncation decides, and the duration
      reported is the float's truncation toward zero. */
  lemma ReadVideoInfoOrder(s: Stream, rest: seq<Stream>, totalFrames: nat, totalDuration: int,
                           parseFloat: string -> Result<PyFloat>)
    requires FloatOf(Get(s, "duration", JInt(totalDuration)), parseFloat).Ok?
    ensures var d := FloatOf(Get(s, "duration", JInt(totalDuration)), parseFloat).value;
      var count := IntOf(Get(s, "nb_frames", JInt(totalFrames)));
      var r := ReadVideoInfo(Probed(Some([s] + rest)), totalFrames, totalDuration, parseFloat);
      && (count.Err? ==> r == Err(count.error))
      && (count.Ok? && !d.Finite? ==> r == Err(Truncate(d).error))
      && (count.Ok? && d.Finite? ==> r.Ok? && r.value.duration == d.truncated && r.value.frameCount == count.value)
  {
    assert FirstStream(Probed(Some([s] + rest))) == Ok(s);
  }

  // =========================================== create_video_from_frames

  /** The external tools: the exit status and standard output of a command,
      and Python's conversion of a string to a float. */
  datatype Tools = Tools(exitCode: ToolCommand -> int, stdout: ToolCommand -> ProbeOutput,
                         parseFloat: string -> Result<PyFloat>)

  /** The ffmpeg and ffprobe invocations of the slideshow and the audio
      extraction; Argv gives each one's argument list. */
  datatype ToolCommand =
    | ConcatEncode(scriptPath: string, fps: int, out: string)
    | DrawText(input: string, filters: seq<Drawtext>, tempDir: string)
    | ProbeVideo(path: string)
    | ExtractAudio(videoPath: string, audioPath: string)
    | ProbeAudio(path: string)

  function Argv(c: ToolCommand): seq<string>
  {
    match c
    case ConcatEncode(scriptPath, fps, out) =>
      ["ffmpeg", "-f", "concat", "-safe", "0", "-i", scriptPath, "-c:v", "libx264", "-pix_fmt", "yuv420p",
       "-r", IntToString(fps), "-vf", "fps=25", out, "-y"]
    case DrawText(input, filters, tempDir) =>
      ["ffmpeg", "-i", input, "-vf", JoinWith(RenderFilters(filters), ","), "-c:v", "libx264",
       "-pix_fmt", "yuv420p", Join(tempDir, "temp_output.mp4"), "-y"]
    case ProbeVideo(path) =>
      ["ffprobe", "-v", "error", "-select_streams", "v:0", "-show_entries", "stream=width,height,duration,nb_frames",
       "-of", "json", path]
    case ExtractAudio(videoPath, audioPath) =>
      ["ffmpeg", "-i", videoPath, "-q:a", "0", "-map", "a", audioPath, "-y"]
    case ProbeAudio(path) =>
      ["ffprobe", "-v", "error", "-select_streams", "a:0", "-show_entries", "stream=duration,sample_rate,channels",
       "-of", "json", path]
  }

  datatype VideoResult =
    | VideoCreated(outputPath: string, duration: int, frameCount: int, width: JsonScalar, height: JsonScalar,
                   totalFramesUsed: nat)
    | VideoFailed(error: PyError, errorPath: Option<string>)

  /** The output path (lines 145-148): given, or `output/summary_video.mp4`
      beside the frames directory. */
  function VideoOutputPath(framesDir: string, outputPath: Option<string>): string
  {
    outputPath.GetOr(Join(Join(Dirname(framesDir), "output"), "summary_video.mp4"))
  }

  lemma DefaultVideoOutputPath(framesDir: string)
    ensures Basename(VideoOutputPath(framesDir, None)) == "summary_video.mp4"
    ensures Dirname(VideoOutputPath(framesDir, None)) == Join(Dirname(framesDir), "output")
  {
    BasenameOfJoin(Join(Dirname(framesDir), "output"), "summary_video.mp4");
    DirnameOfJoin(Join(Dirname(framesDir), "output"), "summary_video.mp4");
  }

  function RenderFilters(filters: seq<Drawtext>): (r: seq<string>)
    ensures |r| == |filters|
  {
    seq(|filters|, k requires 0 <= k < |filters| => RenderDrawtext(filters[k]))
  }

  /** Whether the second, text-drawing pass runs (lines 229 and 254). */
  predicate TextPass(overlays: Option<seq<Overlay>>, totalFrames: nat, d: int)
  {
    overlays.Some? && overlays.value != [] && DrawtextFilters(overlays.value, totalFrames, d) != []
  }

  /** The text pass runs exactly when some overlay shown with a frame has
      text. */
  lemma TextPassSpec(overlays: Option<seq<Overlay>>, totalFrames: nat, d: int)
    ensures TextPass(overlays, totalFrames, d) <==>
      overlays.Some? && exists i :: 0 <= i < |overlays.value| && i < totalFrames && OverlayText(overlays.value[i]) != ""
  {
    if overlays.Some? {
      var ov := overlays.value;
      if exists i :: 0 <= i < |ov| && i < totalFrames && OverlayText(ov[i]) != "" {
        var i :| 0 <= i < |ov| && i < totalFrames && OverlayText(ov[i]) != "";
        DrawtextFiltersSpec(ov, totalFrames, d, OverlayFilter(ov[i], i, d));
      }
      if DrawtextFilters(ov, totalFrames, d) != [] {
        DrawtextFiltersSpec(ov, totalFrames, d, DrawtextFilters(ov, totalFrames, d)[0]);
      }
    }
  }

  /** The commands a slideshow needs, in order: the concat encode, the text
      pass when it runs, and the probe. */
  function VideoPlan(frames: seq<string>, out: string, fps: int, d: int, overlays: Option<seq<Overlay>>,
                     tempDir: string): (plan: seq<ToolCommand>)
    ensures 2 <= |plan| <= 3
  {
    [ConcatEncode(Join(tempDir, "ffmpeg_script.txt"), fps, out)]
    + (if TextPass(overlays, |frames|, d) then [DrawText(out, DrawtextFilters(overlays.value, |frames|, d), tempDir)]
       else [])
    + [ProbeVideo(out)]
  }

  /** The success record, or the raise turned into an error naming the
      output path. */
  function VideoOutcome(info: Result<VideoInfo>, out: string, totalFrames: nat): VideoResult
  {
    match info
    case Ok(i) => VideoCreated(out, i.duration, i.frameCount, i.width, i.height, totalFrames)
    case Err(e) => VideoFailed(e, Some(out))
  }

  /** The commands of `plan` run until one fails; that failure, or the video
      read back from the probe. */
  predicate VideoRunReported(frames: seq<string>, out: string, fps: int, d: int, overlays: Option<seq<Overlay>>,
                             tempDir: string, tools: Tools, r: VideoResult, commands: seq<ToolCommand>)
  {
    && RanUntilFailure(VideoPlan(frames, out, fps, d, overlays, tempDir), tools.exitCode, commands)
    && var last := commands[|commands| - 1];
    && (tools.exitCode(last) != 0 ==> r == VideoFailed(CalledProcessError(Argv(last), tools.exitCode(last)), Some(out)))
    && (tools.exitCode(last) == 0 ==>
          r == VideoOutcome(ReadVideoInfo(tools.stdout(last), |frames|, |frames| * d, tools.parseFloat), out, |frames|))
  }

  /** What `create_video_from_frames` reports once it has frames: the
      script, then the command runs. */
  predicate VideoReported(frames: seq<string>, out: string, fps: int, d: int, transitions: bool,
                          overlays: Option<seq<Overlay>>, tempDir: string, tools: Tools,
                          r: VideoResult, script: seq<ScriptLine>, commands: seq<ToolCommand>)
  {
    script == ConcatScript(frames, d, transitions) && VideoRunReported(frames, out, fps, d, overlays, tempDir, tools, r, commands)
  }

  /** A created video went through every planned command successfully, the
      last being the probe of the output path, and used every frame. */
  lemma VideoCreatedSpec(frames: seq<string>, out: string, fps: int, d: int, overlays: Option<seq<Overlay>>,
                         tempDir: string, tools: Tools, r: VideoResult, commands: seq<ToolCommand>)
    requires VideoRunReported(frames, out, fps, d, overlays, tempDir, tools, r, commands)
    requires r.VideoCreated?
    ensures commands == VideoPlan(frames, out, fps, d, overlays, tempDir)
    ensures forall k :: 0 <= k < |commands| ==> tools.exitCode(commands[k]) == 0
    ensures commands[|commands| - 1] == ProbeVideo(out)
    ensures r.outputPath == out && r.totalFramesUsed == |frames|
  {
    var plan := VideoPlan(frames, out, fps, d, overlays, tempDir);
    assert commands == plan[..|commands|];
  }

  /** `create_video_from_frames` (lines 121-313). The frames directory's
      existence, its listing, the temporary directory and the tools are
      inputs; a raise becomes an error naming the output path. */
  method CreateVideoFromFrames(framesDir: string, outputPath: Option<string>, fps: Option<int>,
                               durationPerFrame: Option<int>, overlays: Option<seq<Overlay>>,
                               addTransitions: Option<bool>,
                               dirExists: bool, names: seq<string>, tempDir: string, tools: Tools)
    returns (r: VideoResult, script: seq<ScriptLine>, commands: seq<ToolCommand>)
    ensures !dirExists ==>
      r == VideoFailed(Message("Frames directory not found: " + framesDir), None) && commands == [] && script == []
    ensures dirExists && ChosenFrames(framesDir, names) == [] ==>
      r == VideoFailed(Message("No frames found in directory: " + framesDir), None) && commands == [] && script == []
    ensures dirExists && ChosenFrames(framesDir, names) != [] ==>
      VideoReported(ChosenFrames(framesDir, names), VideoOutputPath(framesDir, outputPath), fps.GetOr(1),
                    durationPerFrame.GetOr(3), addTransitions.GetOr(true), overlays, tempDir, tools,
                    r, script, commands)
  {
    var out := VideoOutputPath(framesDir, outputPath);
    var rate := fps.GetOr(1);
    var d := durationPerFrame.GetOr(3);
    var transitions := addTransitions.GetOr(true);
    script, commands := [], [];
    if !dirExists {
      r := VideoFailed(Message("Frames directory not found: " + framesDir), None);
      return;
    }
    var frames := ChosenFrames(framesDir, names);
    if frames == [] {
      r := VideoFailed(Message("No frames found in directory: " + framesDir), None);
      return;
    }
    script := WriteConcatScript(frames, d, transitions);
    r, commands := RunVideoCommands(frames, out, rate, d, overlays, tempDir, tools);
  }

  /** The report when the concat encode exits non-zero. */
  lemma ConcatFailedReported(frames: seq<string>, out: string, fps: int, d: int, overlays: Option<seq<Overlay>>,
                             tempDir: string, tools: Tools)
    requires tools.exitCode(ConcatEncode(Join(tempDir, "ffmpeg_script.txt"), fps, out)) != 0
    ensures var cmd := ConcatEncode(Join(tempDir, "ffmpeg_script.txt"), fps, out);
      VideoRunReported(frames, out, fps, d, overlays, tempDir, tools,
                       VideoFailed(CalledProcessError(Argv(cmd), tools.exitCode(cmd)), Some(out)), [cmd])
  {
    var plan := VideoPlan(frames, out, fps, d, overlays, tempDir);
    StoppedAt(plan, tools.exitCode, 1);
    assert plan[..1] == [plan[0]];
  }

  /** The report when the concat encode succeeds and the text pass exits
      non-zero. */
  lemma TextFailedReported(frames: seq<string>, out: string, fps: int, d: int, overlays: Option<seq<Overlay>>,
                           tempDir: string, tools: Tools)
    requires TextPass(overlays, |frames|, d)
    requires tools.exitCode(ConcatEncode(Join(tempDir, "ffmpeg_script.txt"), fps, out)) == 0
    requires tools.exitCode(DrawText(out, DrawtextFilters(overlays.value, |frames|, d), tempDir)) != 0
    ensures var cmd := ConcatEncode(Join(tempDir, "ffmpeg_script.txt"), fps, out);
      var textCmd := DrawText(out, DrawtextFilters(overlays.value, |frames|, d), tempDir);
      VideoRunReported(frames, out, fps, d, overlays, tempDir, tools,
                       VideoFailed(CalledProcessError(Argv(textCmd), tools.exitCode(textCmd)), Some(out)), [cmd, textCmd])
  {
    var plan := VideoPlan(frames, out, fps, d, overlays, tempDir);
    StoppedAt(plan, tools.exitCode, 2);
    assert plan[..2] == [plan[0], plan[1]];
  }

  /** The report once every command before the probe succeeded: the probe
      fails, or the video is read back from its output. */
  lemma ProbeReported(frames: seq<string>, out: string, fps: int, d: int, overlays: Option<seq<Overlay>>,
                      tempDir: string, tools: Tools)
    requires tools.exitCode(ConcatEncode(Join(tempDir, "ffmpeg_script.txt"), fps, out)) == 0
    requires TextPass(overlays, |frames|, d) ==>
      tools.exitCode(DrawText(out, DrawtextFilters(overlays.value, |frames|, d), tempDir)) == 0
    ensures var probe := ProbeVideo(out);
      VideoRunReported(frames, out, fps, d, overlays, tempDir, tools,
                       if tools.exitCode(probe) != 0 then VideoFailed(CalledProcessError(Argv(probe), tools.exitCode(probe)), Some(out))
                       else VideoOutcome(ReadVideoInfo(tools.stdout(probe), |frames|, |frames| * d, tools.parseFloat), out, |frames|),
                       VideoPlan(frames, out, fps, d, overlays, tempDir))
  {
    var plan := VideoPlan(frames, out, fps, d, overlays, tempDir);
    RanThrough(plan, tools.exitCode);
  }

  /** Lines 212-306: the concat encode, the text pass when some overlay has
      text, and the probe, each raising on a non-zero exit. */
  method RunVideoCommands(frames: seq<string>, out: string, fps: int, d: int, overlays: Option<seq<Overlay>>,
                          tempDir: string, tools: Tools)
    returns (r: VideoResult, commands: seq<ToolCommand>)
    ensures VideoRunReported(frames, out, fps, d, overlays, tempDir, tools, r, commands)
  {
    var totalFrames := |frames|;
    var totalDuration := totalFrames * d;
    var cmd := ConcatEncode(Join(tempDir, "ffmpeg_script.txt"), fps, out);
    commands := [cmd];
    if tools.exitCode(cmd) != 0 {
      r := VideoFailed(CalledProcessError(Argv(cmd), tools.exitCode(cmd)), Some(out));
      ConcatFailedReported(frames, out, fps, d, overlays, tempDir, tools);
      return;
    }
    if overlays.Some? && overlays.value != [] {
      var filters := BuildDrawtextFilters(overlays.value, totalFrames, d);
      if filters != [] {
        var textCmd := DrawText(out, filters, tempDir);
        commands := commands + [textCmd];
        if tools.exitCode(textCmd) != 0 {
          r := VideoFailed(CalledProcessError(Argv(textCmd), tools.exitCode(textCmd)), Some(out));
          TextFailedReported(frames, out, fps, d, overlays, tempDir, tools);
          return;
        }
      }
    }
    var infoCmd := ProbeVideo(out);
    commands := commands + [infoCmd];
    ProbeReported(frames, out, fps, d, overlays, tempDir, tools);
    if tools.exitCode(infoCmd) != 0 {
      r := VideoFailed(CalledProcessError(Argv(infoCmd), tools.exitCode(infoCmd)), Some(out));
      return;
    }
    var info := ReadVideoInfo(tools.stdout(infoCmd), totalFrames, totalDuration, tools.parseFloat);
    match info {
      case Err(e) =>
        r := VideoFailed(e, Some(out));
      case Ok(i) =>
        r := VideoCreated(out, i.duration, i.frameCount, i.width, i.height, totalFrames);
    }
  }

  // =========================================== extract_audio_from_video

  datatype AudioInfo = AudioInfo(duration: int, sampleRate: int, channels: int)

  datatype AudioResult =
    | AudioExtracted(outputPath: string, duration: int, sampleRate: int, channels: int)
    | AudioFailed(error: PyError, errorPath: Option<string>)

  /** The output path (lines 329-332): given, or the video's stem with an
      `.mp3` extension beside it. */
  function AudioOutputPath(videoPath: string, outputPath: Option<string>): string
  {
    outputPath.GetOr(Join(Dirname(videoPath), Stem(videoPath) + ".mp3"))
  }

  lemma DefaultAudioOutputPath(videoPath: string)
    ensures Basename(AudioOutputPath(videoPath, None)) == Stem(videoPath) + ".mp3"
  {
    assert '/' !in Stem(videoPath) + ".mp3";
    BasenameOfJoin(Dirname(videoPath), Stem(videoPath) + ".mp3");
  }

  /** Lines 374-377 and 382: the first stream's duration through `float()`,
      its sample rate and channel count through `int()`, each zero when
      missing; the duration is truncated by `int()` only when the result is
      built. The first conversion that raises is the error. */
  function ReadAudioInfo(out: ProbeOutput, parseFloat: string -> Result<PyFloat>): Result<AudioInfo>
  {
    match FirstStream(out)
    case Err(e) => Err(e)
    case Ok(s) =>
      match FloatOf(Get(s, "duration", JInt(0)), parseFloat)
      case Err(e) => Err(e)
      case Ok(duration) =>
        match IntOf(Get(s, "sample_rate", JInt(0)))
        case Err(e) => Err(e)
        case Ok(rate) =>
          match IntOf(Get(s, "channels", JInt(0)))
          case Err(e) => Err(e)
          case Ok(channels) =>
            match Truncate(duration)
            case Err(e) => Err(e)
            case Ok(seconds) => Ok(AudioInfo(seconds, rate, channels))
  }

  /** A sample rate printed as a decimal string is reported as that rate;
      without a `streams` key everything is zero. */
  lemma ReadAudioInfoSpec(s: Stream, rest: seq<Stream>, parseFloat: string -> Result<PyFloat>, n: int)
    requires "sample_rate" in s && s["sample_rate"] == JText(IntToString(n))
    requires FloatOf(Get(s, "duration", JInt(0)), parseFloat).Ok?
    requires FloatOf(Get(s, "duration", JInt(0)), parseFloat).value.Finite?
    requires "channels" !in s
    ensures ReadAudioInfo(Probed(Some([s] + rest)), parseFloat).Ok?
    ensures ReadAudioInfo(Probed(Some([s] + rest)), parseFloat).value.sampleRate == n
    ensures ReadAudioInfo(Probed(None), parseFloat) == Ok(AudioInfo(0, 0, 0))
  {
    assert FirstStream(Probed(Some([s] + rest))) == Ok(s);
    assert Get(s, "sample_rate", JInt(0)) == JText(IntToString(n));
    assert Get(s, "channels", JInt(0)) == JInt(0);
    IntOfText(n);
  }

  /** Once the duration has gone through `float()`, a sample rate or channel
      count that `int()` refuses is the error even when the duration is
      infinite or NaN; otherwise the duration's truncation decides. */
  lemma ReadAudioInfoOrder(s: Stream, rest: seq<Stream>, parseFloat: string -> Result<PyFloat>)
    requires FloatOf(Get(s, "duration", JInt(0)), parseFloat).Ok?
    ensures var d := FloatOf(Get(s, "duration", JInt(0)), parseFloat).value;
      var rate := IntOf(Get(s, "sample_rate", JInt(0)));
      var channels := IntOf(Get(s, "channels", JInt(0)));
      var r := ReadAudioInfo(Probed(Some([s] + rest)), parseFloat);
      && (rate.Err? ==> r == Err(rate.error))
      && (rate.Ok? && channels.Err? ==> r == Err(channels.error))
      && (rate.Ok? && channels.Ok? && !d.Finite? ==> r == Err(Truncate(d).error))
      && (rate.Ok? && channels.Ok? && d.Finite? ==> r == Ok(AudioInfo(d.truncated, rate.value, channels.value)))
  {
    assert FirstStream(Probed(Some([s] + rest))) == Ok(s);
  }

  /** `extract_audio_from_video` (lines 316-392). Whether the video exists,
      whether ffmpeg left the output file, and the tools are inputs. */
  method ExtractAudioFromVideo(videoPath: string, outputPath: Option<string>, videoExists: bool, created: bool,
                               tools: Tools)
    returns (r: AudioResult, commands: seq<ToolCommand>)
    ensures !videoExists ==> r == AudioFailed(Message("Video file not found: " + videoPath), None) && commands == []
    ensures videoExists ==>
      var out := AudioOutputPath(videoPath, outputPath);
      var extract := ExtractAudio(videoPath, out);
      && |commands| >= 1 && commands[0] == extract
      && (tools.exitCode(extract) != 0 ==>
            commands == [extract] && r == AudioFailed(CalledProcessError(Argv(extract), tools.exitCode(extract)), Some(out)))
      && (tools.exitCode(extract) == 0 && !created ==>
            commands == [extract] && r == AudioFailed(Message("Failed to extract audio: output file not created"), None))
      && (tools.exitCode(extract) == 0 && created ==>
            var probe := ProbeAudio(out);
            && commands == [extract, probe]
            && (tools.exitCode(probe) != 0 ==> r == AudioFailed(CalledProcessError(Argv(probe), tools.exitCode(probe)), Some(out)))
            && (tools.exitCode(probe) == 0 ==>
                  r == match ReadAudioInfo(tools.stdout(probe), tools.parseFloat)
                       case Ok(i) => AudioExtracted(out, i.duration, i.sampleRate, i.channels)
                       case Err(e) => AudioFailed(e, Some(out))))
    ensures r.AudioExtracted? ==>
      && videoExists && created && r.outputPath == AudioOutputPath(videoPath, outputPath) && |commands| == 2
      && forall k :: 0 <= k < |commands| ==> tools.exitCode(commands[k]) == 0
  {
    var out := AudioOutputPath(videoPath, outputPath);
    commands := [];
    if !videoExists {
      r := AudioFailed(Message("Video file not found: " + videoPath), None);
      return;
    }
    var cmd := ExtractAudio(videoPath, out);
    commands := [cmd];
    if tools.exitCode(cmd) != 0 {
      r := AudioFailed(CalledProcessError(Argv(cmd), tools.exitCode(cmd)), Some(out));
      return;
    }
    if !created {
      r := AudioFailed(Message("Failed to extract audio: output file not created"), None);
      return;
    }
    var infoCmd := ProbeAudio(out);
    commands := commands + [infoCmd];
    if tools.exitCode(infoCmd) != 0 {
      r := AudioFailed(CalledProcessError(Argv(infoCmd), tools.exitCode(infoCmd)), Some(out));
      return;
    }
    var info := ReadAudioInfo(tools.stdout(infoCmd), tools.parseFloat);
    match info {
      case Err(e) =>
        r := AudioFailed(e, Some(out));
      case Ok(i) =>
        r := AudioExtracted(out, i.duration, i.sampleRate, i.channels);
    }
  }

  // =============================================== read_transcript_json

  /** What opening and decoding the file gives: the data, a decode error, or
      another exception by its `str()`. */
  datatype Loaded<T> = Parsed(data: T) | Undecodable | LoadRaised(text: string)

  /** `read_transcript_json` (lines 84-118): the data when the file exists
      and decodes, and otherwise the error that names why. */
  function ReadTranscriptJson<T>(jsonPath: string, fileExists: bool, load: Loaded<T>): (r: Result<T>)
    ensures r.Ok? <==> fileExists && load.Parsed?
    ensures r.Ok? ==> r.value == load.data
    ensures !fileExists ==> r == Err(Message("File not found: " + jsonPath))
    ensures fileExists && load.Undecodable? ==> r == Err(Message("Invalid JSON file: " + jsonPath))
    ensures fileExists && load.LoadRaised? ==> r == Err(Raised(load.text))
  {
    if !fileExists then Err(Message("File not found: " + jsonPath))
    else
      match load
      case Parsed(data) => Ok(data)
      case Undecodable => Err(Message("Invalid JSON file: " + jsonPath))
      case LoadRaised(text) => Err(Raised(text))
  }
}
