/** `process_request` (main.py lines 561-681): what the pipeline reports
    after the manager agent has answered, and which later stages it runs.
    The agents and `process_audio` are oracles; what they answer, and which
    paths exist, are fields of a `Run`. */
module Pipeline {
  import opened Common
  import opened PyText
  import opened Transcript

  // ============================================================ key steps

  /** A key step as the understanding agent reports it: a dictionary whose
      values are shown by their `str()`. */
  type Step = map<string, string>

  /** `step.get('description', 'Step')`. */
  function Description(s: Step): string
  {
    if "description" in s then s["description"] else "Step"
  }

  /** ` (at <timestamp>)` when the step has a timestamp. */
  function AtPart(s: Step): string
  {
    if "timestamp" in s then " (at " + s["timestamp"] + ")" else ""
  }

  /** ` - Frame: <frame>` when the step names a frame. */
  function FramePart(s: Step): string
  {
    if "frame" in s then " - Frame: " + s["frame"] else ""
  }

  /** The entry of `key_steps_list` for a step: the frame is not part of it. */
  function StepItem(s: Step): string
  {
    Description(s) + AtPart(s)
  }

  /** The line of `key_steps_text` for the step at 0-based position `i`,
      without the line break that precedes it. */
  function StepLine(i: nat, s: Step): string
  {
    NatToString(i + 1) + ". " + Description(s) + AtPart(s) + FramePart(s)
  }

  /** The lines of the steps, numbered in order. */
  function StepLines(steps: seq<Step>): (lines: seq<string>)
    ensures |lines| == |steps|
  {
    if steps == [] then []
    else StepLines(steps[..|steps| - 1]) + [StepLine(|steps| - 1, steps[|steps| - 1])]
  }

  function StepItems(steps: seq<Step>): (items: seq<string>)
    ensures |items| == |steps|
  {
    if steps == [] then []
    else StepItems(steps[..|steps| - 1]) + [StepItem(steps[|steps| - 1])]
  }

  const NoKeySteps := "(No key steps identified)"

  /** Whether the agent reported a non-empty list of key steps. */
  predicate HasSteps(keySteps: Option<seq<Step>>)
  {
    keySteps.Some? && keySteps.value != []
  }

  /** The lines of `key_steps_text`: the numbered steps, or the notice that
      there are none when the list is absent or empty. */
  function KeyStepsLines(keySteps: Option<seq<Step>>): (lines: seq<string>)
    ensures |lines| >= 1
  {
    if HasSteps(keySteps) then StepLines(keySteps.value) else [NoKeySteps]
  }

  /** `key_steps_text` after the loop (main.py lines 616-633). */
  function KeyStepsText(keySteps: Option<seq<Step>>): string
  {
    Led(KeyStepsLines(keySteps))
  }

  /** `key_steps_list` after the loop. */
  function KeyStepsItems(keySteps: Option<seq<Step>>): (items: seq<string>)
    ensures |items| == if HasSteps(keySteps) then |keySteps.value| else 0
  {
    if HasSteps(keySteps) then StepItems(keySteps.value) else []
  }

  /** Line `k` belongs to step `k`, and so does item `k`. */
  lemma {:induction false} StepLinesAt(steps: seq<Step>, k: nat)
    requires k < |steps|
    ensures StepLines(steps)[k] == StepLine(k, steps[k])
    ensures StepItems(steps)[k] == StepItem(steps[k])
  {
    var n := |steps| - 1;
    var init := steps[..n];
    assert StepLines(steps) == StepLines(init) + [StepLine(n, steps[n])];
    assert StepItems(steps) == StepItems(init) + [StepItem(steps[n])];
    if k < n {
      StepLinesAt(init, k);
      assert init[k] == steps[k];
    } else {
      assert |StepLines(init)| == k && |StepItems(init)| == k;
    }
  }

  /** One round of the rendering loop appends the step's line and its
      item. */
  lemma StepsStep(steps: seq<Step>, i: nat)
    requires i < |steps|
    ensures Led(StepLines(steps[..i + 1])) == Led(StepLines(steps[..i])) + ("\n" + StepLine(i, steps[i]))
    ensures StepItems(steps[..i + 1]) == StepItems(steps[..i]) + [StepItem(steps[i])]
  {
    assert steps[..i + 1][..i] == steps[..i];
    var lines := StepLines(steps[..i + 1]);
    assert lines[..i] == StepLines(steps[..i]);
  }

  /** Appending the pieces of a line one by one appends the whole line. */
  lemma AppendPieces(t: string, nl: string, n: string, dot: string, d: string, a: string, f: string)
    ensures t + (nl + n + dot + d) + a + f == t + (nl + (n + dot + d + a + f))
  {
  }

  lemma AppendNothing(t: string)
    ensures t + "" == t
  {
  }

  /** The separators of a step line hold no line break. */
  lemma StepSeparatorsNoBreak()
    ensures '\n' !in ". " && '\n' !in " (at " && '\n' !in ")" && '\n' !in " - Frame: " && '\n' !in "Step"
  {
  }

  /** A step whose values hold no line break. */
  predicate OneLine(s: Step)
  {
    forall key :: key in s ==> '\n' !in s[key]
  }

  lemma StepLineNoBreak(i: nat, s: Step)
    requires OneLine(s)
    ensures '\n' !in StepLine(i, s)
  {
    StepSeparatorsNoBreak();
    DigitsExclude(NatToString(i + 1), '\n');
    assert '\n' !in Description(s);
    assert '\n' !in AtPart(s);
    assert '\n' !in FramePart(s);
  }

  /** Splitting the rendered key steps at line breaks gives an empty first
      piece and then one numbered line per step, in order (or the notice
      that there are none), when no step value holds a line break. */
  lemma KeyStepsSplit(keySteps: Option<seq<Step>>)
    requires keySteps.Some? ==> forall k :: 0 <= k < |keySteps.value| ==> OneLine(keySteps.value[k])
    ensures Split(KeyStepsText(keySteps), '\n') == [""] + KeyStepsLines(keySteps)
  {
    KeyStepsLinesNoBreak(keySteps);
    SplitLed(KeyStepsLines(keySteps));
  }

  /** No rendered key-step line holds a line break, when no step value does. */
  lemma KeyStepsLinesNoBreak(keySteps: Option<seq<Step>>)
    requires keySteps.Some? ==> forall k :: 0 <= k < |keySteps.value| ==> OneLine(keySteps.value[k])
    ensures forall k :: 0 <= k < |KeyStepsLines(keySteps)| ==> '\n' !in KeyStepsLines(keySteps)[k]
  {
    var lines := KeyStepsLines(keySteps);
    forall k | 0 <= k < |lines| ensures '\n' !in lines[k] {
      if HasSteps(keySteps) {
        StepLinesAt(keySteps.value, k);
        StepLineNoBreak(k, keySteps.value[k]);
        assert lines[k] == StepLine(k, keySteps.value[k]);
      } else {
        assert lines[k] == NoKeySteps;
      }
    }
  }

  /** The key-step loop of `process_request` (main.py lines 616-633). */
  method RenderKeySteps(keySteps: Option<seq<Step>>) returns (keyStepsText: string, keyStepsList: seq<string>)
    ensures keyStepsText == KeyStepsText(keySteps)
    ensures keyStepsList == KeyStepsItems(keySteps)
  {
    keyStepsText := "";
    keyStepsList := [];
    if keySteps.Some? && keySteps.value != [] {
      var steps := keySteps.value;
      for i := 0 to |steps|
        invariant keyStepsText == Led(StepLines(steps[..i]))
        invariant keyStepsList == StepItems(steps[..i])
      {
        var step := steps[i];
        ghost var before := keyStepsText;
        var stepText := Description(step);
        AppendPieces(before, "\n", NatToString(i + 1), ". ", stepText, AtPart(step), FramePart(step));
        keyStepsText := keyStepsText + ("\n" + NatToString(i + 1) + ". " + stepText);
        if "timestamp" in step {
          keyStepsText := keyStepsText + (" (at " + step["timestamp"] + ")");
          stepText := stepText + (" (at " + step["timestamp"] + ")");
        } else {
          AppendNothing(keyStepsText);
          AppendNothing(stepText);
        }
        if "frame" in step {
          keyStepsText := keyStepsText + (" - Frame: " + step["frame"]);
        } else {
          AppendNothing(keyStepsText);
        }
        assert keyStepsText == before + ("\n" + StepLine(i, step));
        keyStepsList := keyStepsList + [stepText];
        StepsStep(steps, i);
      }
      assert steps[..|steps|] == steps;
    } else {
      keyStepsText := "\n" + NoKeySteps;
      LedOne(NoKeySteps);
    }
  }

  // ======================================================== decision tree

  /** The manager agent's final output: the download type (`codeagentoutput`)
      with its two paths, or anything else. */
  datatype ManagerOutput = DownloadOutput(videoPath: string, audioPath: string) | OtherOutput

  /** The understanding agent's final output: `videounderstandingoutput`, or
      anything else. */
  datatype UnderstandingOutput =
    | Understanding(summary: string, keySteps: Option<seq<Step>>, framesDir: string)
    | OtherUnderstanding

  /** The editing agent's final output: `videoeditingoutput`, or anything
      else. */
  datatype EditingOutput =
    | Edited(outputVideoPath: string, duration: int, frameCount: int)
    | OtherEditing

  /** Everything `process_request` learns from outside: the manager's output
      and its `str()`, which paths exist, what `process_audio` returns for a
      path, and what the two later agents answer to a request text. */
  datatype Run = Run(
    manager: ManagerOutput,
    shown: string,
    pathExists: string -> bool,
    processAudio: string -> AudioReport,
    understand: string -> UnderstandingOutput,
    edit: string -> EditingOutput)

  /** A stage run after the manager agent, with its input: the audio path
      given to `process_audio`, or what an agent's request is made of. */
  datatype Stage =
    | AudioStage(audioPath: string)
    | UnderstandingStage(videoPath: string, jsonPath: string)
    | EditingStage(framesDir: string, keyStepsList: seq<string>, summary: string)

  /** Each key step in double quotes: dropping the first and the last
      character gives the step back. */
  function Quoted(items: seq<string>): (quoted: seq<string>)
    ensures |quoted| == |items|
    ensures forall i :: 0 <= i < |quoted| ==>
      && |quoted[i]| == |items[i]| + 2 && quoted[i][0] == '"' && quoted[i][|quoted[i]| - 1] == '"'
      && quoted[i][1..|quoted[i]| - 1] == items[i]
  {
    seq(|items|, i requires 0 <= i < |items| => "\"" + items[i] + "\"")
  }

  /** The request text an agent stage sends (main.py lines 602 and 643). */
  function Request(s: Stage): string
    requires !s.AudioStage?
  {
    match s
    case UnderstandingStage(videoPath, jsonPath) =>
      "Please analyze this video: " + videoPath + " and use the transcript data from " + jsonPath
        + " to extract key frames and summarize the process."
    case EditingStage(framesDir, items, summary) =>
      "Please create a short video from the frames in " + framesDir + " with the following key steps: ["
        + JoinWith(Quoted(items), ", ") + "]. The summary of the video is: " + summary
  }

  /** Which report `process_request` returns, with what fills it in. */
  datatype Report =
    | ManagerShown                                           // str(manager_output)
    | AudioFailed(error: string)
    | TranscriptOnly(transcript: string, keyPoints: seq<string>)
    | Analysis(summary: string, keySteps: Option<seq<Step>>, framesDir: string)
    | Creation(outputVideoPath: string, duration: int, frameCount: int,
               summary: string, keySteps: Option<seq<Step>>, framesDir: string)

  /** `"\n".join(f"- {point}" for point in key_points)`. */
  function Bullets(keyPoints: seq<string>): (lines: seq<string>)
    ensures |lines| == |keyPoints|
    ensures forall i :: 0 <= i < |lines| ==>
      |lines[i]| == |keyPoints[i]| + 2 && lines[i][..2] == "- " && lines[i][2..] == keyPoints[i]
  {
    seq(|keyPoints|, i requires 0 <= i < |keyPoints| => "- " + keyPoints[i])
  }

  /** The understanding-only report (main.py line 667). */
  function AnalysisText(summary: string, keySteps: Option<seq<Step>>, framesDir: string): string
  {
    "Video Analysis Summary:" + "\n\n" + summary + "\n\n" + "Key Steps:" + KeyStepsText(keySteps)
      + "\n\n" + "Frames extracted to: " + framesDir
  }

  /** The lines the final report puts before the analysis report (main.py
      lines 656-660); each f-string piece there ends in a line break. */
  function HeaderLines(outputVideoPath: string, duration: int, frameCount: int): seq<string>
  {
    ["Video Creation Summary:", "", "Created a short video highlighting the key steps.",
     "Output video: " + outputVideoPath, "Duration: " + IntToString(duration) + " seconds",
     "Frame count: " + IntToString(frameCount), ""]
  }

  function CreationHeader(outputVideoPath: string, duration: int, frameCount: int): string
  {
    Terminated(HeaderLines(outputVideoPath, duration, frameCount))
  }

  /** The text of the report, given the manager output's `str()` (main.py
      lines 592, 656-663, 667, 674-676 and 681). */
  function ReportText(r: Report, shown: string): string
  {
    match r
    case ManagerShown => shown
    case AudioFailed(error) => shown + "\n\nAudio transcription failed: " + error
    case TranscriptOnly(transcript, keyPoints) =>
      shown + "\n\n--- TRANSCRIPT ---\n" + transcript + "\n\n--- KEY POINTS ---\n" + JoinWith(Bullets(keyPoints), "\n")
    case Analysis(summary, keySteps, framesDir) => AnalysisText(summary, keySteps, framesDir)
    case Creation(outputVideoPath, duration, frameCount, summary, keySteps, framesDir) =>
      CreationHeader(outputVideoPath, duration, frameCount) + AnalysisText(summary, keySteps, framesDir)
  }

  /** The opening of the transcript report, up to its key points. */
  function TranscriptHead(shown: string, transcript: string): string
  {
    shown + "\n\n--- TRANSCRIPT ---\n" + transcript + "\n\n--- KEY POINTS ---\n"
  }

  /** After its `--- KEY POINTS ---` line, the transcript report holds
      exactly one `- <point>` line per key point, in order, when no key point
      holds a line break (an empty last line when there are none). */
  lemma TranscriptReportSplit(shown: string, transcript: string, keyPoints: seq<string>)
    requires forall i :: 0 <= i < |keyPoints| ==> '\n' !in keyPoints[i]
    ensures var text, head := ReportText(TranscriptOnly(transcript, keyPoints), shown), TranscriptHead(shown, transcript);
      && |head| <= |text| && text[..|head|] == head
      && Split(text[|head|..], '\n') == (if keyPoints == [] then [""] else Bullets(keyPoints))
  {
    var text, head := ReportText(TranscriptOnly(transcript, keyPoints), shown), TranscriptHead(shown, transcript);
    var lines := Bullets(keyPoints);
    assert text == head + JoinWith(lines, "\n");
    assert text[|head|..] == JoinWith(lines, "\n");
    if keyPoints == [] {
      assert JoinWith(lines, "\n") == "";
    } else {
      forall i | 0 <= i < |lines| ensures '\n' !in lines[i] {
        assert lines[i] == "- " + keyPoints[i];
      }
      SplitJoin(lines, '\n');
    }
  }

  /** The analysis report, line by line: its title, the summary, the
      `Key Steps:` line followed by the rendered steps (or the notice), then
      where the frames went, when neither the summary, the directory nor any
      step value holds a line break. */
  lemma AnalysisReportLines(summary: string, keySteps: Option<seq<Step>>, framesDir: string, shown: string)
    requires '\n' !in summary && '\n' !in framesDir
    requires keySteps.Some? ==> forall k :: 0 <= k < |keySteps.value| ==> OneLine(keySteps.value[k])
    ensures Split(ReportText(Analysis(summary, keySteps, framesDir), shown), '\n')
         == ["Video Analysis Summary:", "", summary, "", "Key Steps:"] + KeyStepsLines(keySteps)
            + ["", "Frames extracted to: " + framesDir]
  {
    assert ReportText(Analysis(summary, keySteps, framesDir), shown) == AnalysisText(summary, keySteps, framesDir);
    AnalysisTextLines(summary, keySteps, framesDir);
  }

  /** The analysis report, line by line. */
  lemma AnalysisTextLines(summary: string, keySteps: Option<seq<Step>>, framesDir: string)
    requires '\n' !in summary && '\n' !in framesDir
    requires keySteps.Some? ==> forall k :: 0 <= k < |keySteps.value| ==> OneLine(keySteps.value[k])
    ensures Split(AnalysisText(summary, keySteps, framesDir), '\n')
         == ["Video Analysis Summary:", "", summary, "", "Key Steps:"] + KeyStepsLines(keySteps)
            + ["", "Frames extracted to: " + framesDir]
  {
    var title := "Video Analysis Summary:";
    var tail := "Key Steps:" + KeyStepsText(keySteps) + "\n\n" + ("Frames extracted to: " + framesDir);
    AnalysisTextPieces(summary, keySteps, framesDir);
    AnalysisWordsNoBreak(framesDir);
    SplitTwoBlanks(title, summary, tail);
    StepsPartSplit(keySteps, framesDir);
    Regroup(title, "", summary, "", "Key Steps:", KeyStepsLines(keySteps), "", "Frames extracted to: " + framesDir);
  }

  /** Regrouping the line lists of the analysis report. */
  lemma Regroup<T>(a: T, b: T, c: T, d: T, e: T, lines: seq<T>, f: T, g: T)
    ensures [a, b, c, d] + ([e] + lines + [f, g]) == [a, b, c, d, e] + lines + [f, g]
  {
  }

  /** Two lines, each followed by a blank line, before the rest. */
  lemma SplitTwoBlanks(a: string, b: string, tail: string)
    requires '\n' !in a && '\n' !in b
    ensures Split(a + "\n\n" + (b + "\n\n" + tail), '\n') == [a, "", b, ""] + Split(tail, '\n')
  {
    SplitBlank(a, b + "\n\n" + tail);
    SplitBlank(b, tail);
  }

  /** The part of the analysis report from `Key Steps:` on, line by line. */
  lemma StepsPartSplit(keySteps: Option<seq<Step>>, framesDir: string)
    requires '\n' !in framesDir
    requires keySteps.Some? ==> forall k :: 0 <= k < |keySteps.value| ==> OneLine(keySteps.value[k])
    ensures Split("Key Steps:" + KeyStepsText(keySteps) + "\n\n" + ("Frames extracted to: " + framesDir), '\n')
         == ["Key Steps:"] + KeyStepsLines(keySteps) + ["", "Frames extracted to: " + framesDir]
  {
    AnalysisWordsNoBreak(framesDir);
    KeyStepsLinesNoBreak(keySteps);
    SplitLedAfter("Key Steps:", KeyStepsLines(keySteps));
    SplitAfterBreak("Key Steps:" + KeyStepsText(keySteps), "Frames extracted to: " + framesDir);
  }

  /** Splitting at a blank line before a last line that holds no break. */
  lemma SplitAfterBreak(x: string, y: string)
    requires '\n' !in y
    ensures Split(x + "\n\n" + y, '\n') == Split(x, '\n') + ["", y]
  {
    var nl := '\n';
    var e: string := [];
    assert x + "\n\n" + y == x + [nl] + (e + [nl] + y);
    SplitAround(x, e + [nl] + y, nl);
    assert Split(e + [nl] + y, nl) == [e, y] by {
      SplitAround(e, y, nl);
      SplitNoSep(e, nl);
      SplitNoSep(y, nl);
    }
  }

  /** The analysis report as its parts around its blank lines. */
  lemma AnalysisTextPieces(summary: string, keySteps: Option<seq<Step>>, framesDir: string)
    ensures var steps, frames := "Key Steps:" + KeyStepsText(keySteps), "Frames extracted to: " + framesDir;
      AnalysisText(summary, keySteps, framesDir)
      == "Video Analysis Summary:" + "\n\n" + (summary + "\n\n" + (steps + "\n\n" + frames))
  {
  }

  /** The fixed words of the analysis report hold no line break. */
  lemma AnalysisWordsNoBreak(framesDir: string)
    requires '\n' !in framesDir
    ensures '\n' !in "Video Analysis Summary:" && '\n' !in "Key Steps:"
    ensures '\n' !in "Frames extracted to: " + framesDir
  {
  }

  /** The final report is the analysis report with the creation summary in
      front of it: its lines are the header, the output video, the duration
      and the frame count, then a blank line, when the output path holds no
      line break. */
  lemma CreationReportLines(outputVideoPath: string, duration: int, frameCount: int,
                            summary: string, keySteps: Option<seq<Step>>, framesDir: string, shown: string)
    requires '\n' !in outputVideoPath
    ensures var header := CreationHeader(outputVideoPath, duration, frameCount);
      && ReportText(Creation(outputVideoPath, duration, frameCount, summary, keySteps, framesDir), shown)
         == header + ReportText(Analysis(summary, keySteps, framesDir), shown)
      && Split(header, '\n') == ["Video Creation Summary:", "", "Created a short video highlighting the key steps.",
                                  "Output video: " + outputVideoPath, "Duration: " + IntToString(duration) + " seconds",
                                  "Frame count: " + IntToString(frameCount), "", ""]
  {
    var lines := HeaderLines(outputVideoPath, duration, frameCount);
    HeaderLinesNoBreak(outputVideoPath, duration, frameCount);
    SplitTerminated(lines, "");
    assert Terminated(lines) + "" == Terminated(lines);
    SplitNoSep("", '\n');
  }

  /** The final report, line by line: the creation summary's lines, then
      the lines of the analysis report, when the output path holds no line
      break. */
  lemma CreationReportSplit(outputVideoPath: string, duration: int, frameCount: int,
                            summary: string, keySteps: Option<seq<Step>>, framesDir: string, shown: string)
    requires '\n' !in outputVideoPath
    ensures Split(ReportText(Creation(outputVideoPath, duration, frameCount, summary, keySteps, framesDir), shown), '\n')
         == HeaderLines(outputVideoPath, duration, frameCount) + Split(AnalysisText(summary, keySteps, framesDir), '\n')
  {
    HeaderLinesNoBreak(outputVideoPath, duration, frameCount);
    SplitTerminated(HeaderLines(outputVideoPath, duration, frameCount), AnalysisText(summary, keySteps, framesDir));
  }

  lemma HeaderLinesNoBreak(outputVideoPath: string, duration: int, frameCount: int)
    requires '\n' !in outputVideoPath
    ensures var lines := HeaderLines(outputVideoPath, duration, frameCount);
      forall i :: 0 <= i < |lines| ==> '\n' !in lines[i]
  {
    var lines := HeaderLines(outputVideoPath, duration, frameCount);
    DigitsOrSignNoBreak(duration);
    DigitsOrSignNoBreak(frameCount);
    HeaderWordsNoBreak();
    assert lines[3] == "Output video: " + outputVideoPath;
    assert lines[4] == "Duration: " + IntToString(duration) + " seconds";
    assert lines[5] == "Frame count: " + IntToString(frameCount);
  }

  /** The fixed words of the creation summary hold no line break. */
  lemma HeaderWordsNoBreak()
    ensures '\n' !in "Video Creation Summary:" && '\n' !in "Created a short video highlighting the key steps."
    ensures '\n' !in "Output video: " && '\n' !in "Duration: " && '\n' !in " seconds" && '\n' !in "Frame count: "
  {
    var a, b := "Created a short video ", "highlighting the key steps.";
    assert '\n' !in a && '\n' !in b;
    assert a + b == "Created a short video highlighting the key steps.";
  }

  /** `str(i)` holds no line break. */
  lemma DigitsOrSignNoBreak(i: int)
    ensures '\n' !in IntToString(i)
  {
    DigitsExclude(NatToString(if i < 0 then -i else i), '\n');
  }

  /** The report returned, and the stages run to produce it, in order. */
  datatype Outcome = Outcome(report: Report, stages: seq<Stage>)

  /** A truthy path that exists. */
  predicate Present(run: Run, path: string)
  {
    path != "" && run.pathExists(path)
  }

  /** After the understanding agent has answered with its output type
      (main.py lines 614-668): the editing stage runs only with a truthy,
      existing frames directory. */
  function AfterUnderstanding(run: Run, u: UnderstandingOutput, earlier: seq<Stage>): Outcome
    requires u.Understanding?
  {
    var analysis := Analysis(u.summary, u.keySteps, u.framesDir);
    if Present(run, u.framesDir) then
      var editing := EditingStage(u.framesDir, KeyStepsItems(u.keySteps), u.summary);
      var stages := earlier + [editing];
      match run.edit(Request(editing))
      case Edited(path, duration, frameCount) =>
        Outcome(Creation(path, duration, frameCount, u.summary, u.keySteps, u.framesDir), stages)
      case OtherEditing => Outcome(analysis, stages)
    else Outcome(analysis, earlier)
  }

  /** After `process_audio` has returned (main.py lines 588-678). */
  function AfterAudio(run: Run, videoPath: string, audioPath: string): Outcome
  {
    var audio := [AudioStage(audioPath)];
    match run.processAudio(audioPath)
    case AudioError(message) => Outcome(AudioFailed(message), audio)
    case AudioProcessed(transcript, keyPoints, jsonPath) =>
      var fallback := TranscriptOnly(transcript, keyPoints);
      if Present(run, jsonPath) && Present(run, videoPath) then
        var understanding := UnderstandingStage(videoPath, jsonPath);
        var stages := audio + [understanding];
        var u := run.understand(Request(understanding));
        if u.Understanding? then AfterUnderstanding(run, u, stages)
        else Outcome(fallback, stages)
      else Outcome(fallback, audio)
  }

  /** `process_request` from the manager's output on (main.py lines
      578-681). */
  function ProcessRequest(run: Run): (r: Outcome)
    ensures |r.stages| <= 3
  {
    match run.manager
    case OtherOutput => Outcome(ManagerShown, [])
    case DownloadOutput(videoPath, audioPath) =>
      if Present(run, audioPath) then AfterAudio(run, videoPath, audioPath)
      else Outcome(ManagerShown, [])
  }

  /** Whether the manager's output is the download type with a truthy audio
      path that exists: the condition for any later stage. */
  predicate AudioFound(run: Run)
  {
    run.manager.DownloadOutput? && Present(run, run.manager.audioPath)
  }

  /** Without a downloaded, existing audio file nothing else runs and the
      report is `str(manager_output)`; with one, `process_audio` runs first. */
  lemma PassThrough(run: Run)
    ensures ProcessRequest(run).stages == [] <==> !AudioFound(run)
    ensures !AudioFound(run) ==> ProcessRequest(run).report == ManagerShown
    ensures AudioFound(run) ==> ProcessRequest(run).stages[0] == AudioStage(run.manager.audioPath)
  {
  }

  /** A failed audio step ends the request with its error, and no later
      stage runs. */
  lemma AudioFailureStops(run: Run)
    requires AudioFound(run) && run.processAudio(run.manager.audioPath).AudioError?
    ensures ProcessRequest(run).stages == [AudioStage(run.manager.audioPath)]
    ensures ProcessRequest(run).report == AudioFailed(run.processAudio(run.manager.audioPath).message)
  {
  }

  /** Whether the understanding stage is due: the audio step succeeded and
      both the transcript JSON and the video are truthy paths that exist. */
  predicate UnderstandingDue(run: Run)
  {
    && AudioFound(run)
    && var audio := run.processAudio(run.manager.audioPath);
    && audio.AudioProcessed?
    && Present(run, audio.jsonPath) && Present(run, run.manager.videoPath)
  }

  /** The understanding stage, when it is due. */
  function UnderstandingOf(run: Run): Stage
    requires UnderstandingDue(run)
  {
    UnderstandingStage(run.manager.videoPath, run.processAudio(run.manager.audioPath).jsonPath)
  }

  /** The understanding stage runs exactly when it is due, as the second
      stage, on the video and the transcript JSON. */
  lemma UnderstandingRunsWhenDue(run: Run)
    ensures |ProcessRequest(run).stages| >= 2 <==> UnderstandingDue(run)
    ensures UnderstandingDue(run) ==> ProcessRequest(run).stages[1] == UnderstandingOf(run)
  {
  }

  /** The editing stage runs exactly when the understanding agent answered
      with its output type and a truthy frames directory that exists; it is
      then the third and last stage, on that directory, the rendered key
      steps and the summary. */
  lemma EditingNeedsFrames(run: Run)
    ensures |ProcessRequest(run).stages| == 3 <==>
      && UnderstandingDue(run)
      && var u := run.understand(Request(UnderstandingOf(run)));
      && u.Understanding? && Present(run, u.framesDir)
    ensures |ProcessRequest(run).stages| == 3 ==>
      var u := run.understand(Request(UnderstandingOf(run)));
      ProcessRequest(run).stages[2] == EditingStage(u.framesDir, KeyStepsItems(u.keySteps), u.summary)
  {
  }

  /** Which report is returned once the audio step succeeded: the creation
      report when the editing agent answered with its output type; the
      analysis report when the understanding agent did but editing did not
      run or answered otherwise; the transcript report in every other
      case. */
  lemma ReportAfterAudio(run: Run)
    requires AudioFound(run) && run.processAudio(run.manager.audioPath).AudioProcessed?
    ensures var audio := run.processAudio(run.manager.audioPath);
      var r := ProcessRequest(run);
      if UnderstandingDue(run) && run.understand(Request(UnderstandingOf(run))).Understanding? then
        var u := run.understand(Request(UnderstandingOf(run)));
        if |r.stages| == 3 && run.edit(Request(r.stages[2])).Edited? then
          var e := run.edit(Request(r.stages[2]));
          r.report == Creation(e.outputVideoPath, e.duration, e.frameCount, u.summary, u.keySteps, u.framesDir)
        else r.report == Analysis(u.summary, u.keySteps, u.framesDir)
      else r.report == TranscriptOnly(audio.transcript, audio.keyPoints)
  {
  }
}
