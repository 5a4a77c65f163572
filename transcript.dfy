/** The transcript helpers of `main.py`: timestamps, the transcript text,
    its key points, the JSON sidecar and `process_audio`. */
module Transcript {
  import opened Common
  import opened PyText
  import opened PosixPath
  import opened FrameTools

  // ======================================================== format_timestamp

  /** `format_timestamp` (main.py lines 347-359) on whole seconds: minutes
      and remaining seconds, each zero-padded to two digits. */
  function FormatTimestamp(seconds: nat): (r: string)
    ensures |r| >= 5
  {
    ZeroPad2(seconds / 60) + ":" + ZeroPad2(seconds % 60)
  }

  /** The text before the last colon spells the minutes, the two digits
      after it the remaining seconds, which never exceed 59; below 100
      minutes the whole text is five characters long. */
  lemma FormatTimestampFields(seconds: nat)
    ensures var r := FormatTimestamp(seconds);
      && r[|r| - 3] == ':'
      && AllDigits(r[..|r| - 3]) && DigitsValue(r[..|r| - 3]) == seconds / 60
      && AllDigits(r[|r| - 2..]) && DigitsValue(r[|r| - 2..]) == seconds % 60
      && '0' <= r[|r| - 2] <= '5'
      && (seconds < 6000 ==> |r| == 5)
  {
    var a, b := ZeroPad2(seconds / 60), ZeroPad2(seconds % 60);
    var r := FormatTimestamp(seconds);
    assert r[..|r| - 3] == a;
    assert r[|r| - 2..] == b;
    assert DigitsValue(b) == DigitsValue(b[..1]) * 10 + (b[1] as int - '0' as int);
    assert b[..1][..0] == [];
  }

  /** Parsing a formatted timestamp the way `extract_video_frames` does
      gives back the seconds. */
  lemma ParseFormattedTimestamp(seconds: nat)
    ensures ParseTimestamp(FormatTimestamp(seconds)).Ok?
    ensures ParseTimestamp(FormatTimestamp(seconds)).value == seconds
  {
    var a, b := ZeroPad2(seconds / 60), ZeroPad2(seconds % 60);
    assert Split(FormatTimestamp(seconds), ':') == [a, b] by {
      DigitsExclude(a, ':');
      DigitsExclude(b, ':');
      SplitAround(a, b, ':');
      SplitNoSep(a, ':');
      SplitNoSep(b, ':');
    }
    assert ParseInt(a) == Some(seconds / 60) by { ParseIntOfDigits(a); }
    assert ParseInt(b) == Some(seconds % 60) by { ParseIntOfDigits(b); }
    ParseTimestampOfParts(FormatTimestamp(seconds), a, b, seconds / 60, seconds % 60);
  }

  // ====================================================== extract_key_points

  /** The words that mark a line as important (main.py lines 414-418). */
  const KeyWords: seq<string> := [
    "important", "key", "step", "first", "second", "third", "next",
    "finally", "remember", "note", "tip", "trick", "essential",
    "must", "crucial", "critical", "necessary", "vital"
  ]

  /** Whether some word of `words` occurs in `text`. */
  predicate AnyContained(text: string, words: seq<string>)
  {
    words != [] && (Contains(text, words[0]) || AnyContained(text, words[1..]))
  }

  lemma {:induction false} AnyContainedSpec(text: string, words: seq<string>)
    ensures AnyContained(text, words) <==> exists w :: w in words && Contains(text, w)
  {
    if words != [] {
      AnyContainedSpec(text, words[1..]);
      assert words == [words[0]] + words[1..];
    }
  }

  /** `any(word in line.lower() for word in key_words)`. */
  predicate KeywordHit(line: string)
  {
    AnyContained(Lower(line), KeyWords)
  }

  /** A match of `\d+\s*[\.:]` with its last digit at `i` and its
      punctuation at `k`. */
  predicate StepMarkAt(line: string, i: nat, k: nat)
  {
    && i < k < |line| && IsDigit(line[i])
    && (forall j :: i < j < k ==> IsSpace(line[j]))
    && (line[k] == '.' || line[k] == ':')
  }

  /** `re.search(r'\d+\s*[\.:]', line)` succeeds: a digit, then only
      whitespace, then a full stop or a colon. */
  predicate HasStepMark(line: string)
  {
    exists i: nat, k: nat :: i < k < |line| && StepMarkAt(line, i, k)
  }

  /** Whether `extract_key_points` keeps a line (main.py lines 420-426). */
  predicate KeyLine(line: string)
  {
    KeywordHit(line) || HasStepMark(line)
  }

  /** `transcript.strip().split('\n')`. */
  function TranscriptLines(transcript: string): (lines: seq<string>)
    ensures |lines| >= 1
  {
    Split(Strip(transcript), '\n')
  }

  function KeyFlags(lines: seq<string>): (flags: seq<bool>)
    ensures |flags| == |lines|
  {
    seq(|lines|, i requires 0 <= i < |lines| => KeyLine(lines[i]))
  }

  /** The key points of a transcript: its lines that KeyLine accepts. */
  function KeyPoints(transcript: string): seq<string>
  {
    var lines := TranscriptLines(transcript);
    Filter(lines, KeyFlags(lines))
  }

  /** The key points are lines of the transcript, verbatim and in their
      original order (a subsequence) and each accepted by KeyLine. */
  lemma KeyPointsOrder(transcript: string)
    ensures var lines, kp, idx := TranscriptLines(transcript), KeyPoints(transcript),
                                  Selected(KeyFlags(TranscriptLines(transcript)));
      && |kp| == |idx| <= |lines|
      && (forall k :: 0 <= k < |kp| ==> idx[k] < |lines| && kp[k] == lines[idx[k]] && KeyLine(kp[k]))
      && (forall k, l :: 0 <= k < l < |kp| ==> idx[k] < idx[l])
  {
    var lines := TranscriptLines(transcript);
    var flags := KeyFlags(lines);
    var kp, idx := KeyPoints(transcript), Selected(flags);
    assert kp == Filter(lines, flags);
    FilterSelected(lines, flags);
    SelectedBound(flags);
    forall k | 0 <= k < |kp| ensures KeyLine(kp[k]) {
      assert flags[idx[k]];
    }
  }

  /** A line is a key point exactly when KeyLine accepts it. */
  lemma KeyPointsMembership(transcript: string, x: string)
    ensures x in KeyPoints(transcript) <==> x in TranscriptLines(transcript) && KeyLine(x)
  {
    var lines := TranscriptLines(transcript);
    var flags := KeyFlags(lines);
    FilterMembership(lines, flags, x);
    assert forall i :: 0 <= i < |lines| ==> flags[i] == KeyLine(lines[i]);
  }

  /** The key points among the first `i` lines, as the loop has them after
      `i` rounds. */
  function KeptSoFar(lines: seq<string>, i: nat): seq<string>
    requires i <= |lines|
  {
    Filter(lines[..i], KeyFlags(lines)[..i])
  }

  /** One round of the loop keeps line `i` exactly when KeyLine accepts it. */
  lemma KeptSoFarStep(lines: seq<string>, i: nat)
    requires i < |lines|
    ensures KeptSoFar(lines, i + 1)
         == KeptSoFar(lines, i) + (if KeywordHit(lines[i]) || HasStepMark(lines[i]) then [lines[i]] else [])
  {
    FilterStep(lines, KeyFlags(lines), i);
  }

  lemma KeptSoFarAll(transcript: string)
    ensures KeptSoFar(TranscriptLines(transcript), |TranscriptLines(transcript)|) == KeyPoints(transcript)
  {
    var lines := TranscriptLines(transcript);
    assert lines[..|lines|] == lines && KeyFlags(lines)[..|lines|] == KeyFlags(lines);
  }

  /** `extract_key_points` (main.py lines 398-428). */
  method ExtractKeyPoints(transcript: string) returns (keyPoints: seq<string>)
    ensures keyPoints == KeyPoints(transcript)
  {
    keyPoints := [];
    var lines := TranscriptLines(transcript);
    for i := 0 to |lines|
      invariant keyPoints == KeptSoFar(lines, i)
    {
      var line := lines[i];
      KeptSoFarStep(lines, i);
      if KeywordHit(line) {
        keyPoints := keyPoints + [line];
      } else if HasStepMark(line) {
        keyPoints := keyPoints + [line];
      }
    }
    KeptSoFarAll(transcript);
  }

  /** A line that opens with a bracketed formatted timestamp is always kept:
      the minutes' last digit is followed by the colon. */
  lemma TimestampedLineKept(seconds: nat, rest: string)
    ensures KeyLine("[" + FormatTimestamp(seconds) + rest)
  {
    var a := ZeroPad2(seconds / 60);
    var line := "[" + FormatTimestamp(seconds) + rest;
    assert line[|a|] == a[|a| - 1] && line[|a| + 1] == ':';
    assert StepMarkAt(line, |a|, |a| + 1);
  }

  // ======================================================== transcribe_audio

  /** One transcription segment, with whole-second bounds. */
  datatype Segment = Segment(start: nat, end: nat, text: string)

  /** What the transcription service returns: the segments, or the text of
      the exception it raised. */
  datatype Transcription = Segments(segments: seq<Segment>) | TranscriptionFailed(reason: string)

  /** What follows the start time in a segment's line. */
  function SegmentTail(s: Segment): string
  {
    "] - [" + FormatTimestamp(s.end) + "] - " + Strip(s.text)
  }

  /** The line written for a segment (main.py line 390). */
  function SegmentLine(s: Segment): string
  {
    "[" + FormatTimestamp(s.start) + SegmentTail(s)
  }

  /** Every segment line is a key point. */
  lemma SegmentLineKept(s: Segment)
    ensures KeyLine(SegmentLine(s))
  {
    TimestampedLineKept(s.start, SegmentTail(s));
  }

  /** The lines of the segments, in order. */
  function SegmentLines(segments: seq<Segment>): (lines: seq<string>)
    ensures |lines| == |segments|
  {
    if segments == [] then []
    else SegmentLines(segments[..|segments| - 1]) + [SegmentLine(segments[|segments| - 1])]
  }

  lemma {:induction false} SegmentLinesAt(segments: seq<Segment>, k: nat)
    requires k < |segments|
    ensures SegmentLines(segments)[k] == SegmentLine(segments[k])
  {
    var n := |segments| - 1;
    var init := segments[..n];
    assert SegmentLines(segments) == SegmentLines(init) + [SegmentLine(segments[n])];
    if k < n {
      SegmentLinesAt(init, k);
      assert init[k] == segments[k];
    } else {
      assert |SegmentLines(init)| == k;
    }
  }

  /** `formatted_transcript` after the loop: each segment's line and a line
      break, in order. */
  function SegmentsText(segments: seq<Segment>): string
  {
    Terminated(SegmentLines(segments))
  }

  lemma FormatTimestampNoBreak(seconds: nat)
    ensures '\n' !in FormatTimestamp(seconds)
  {
    DigitsExclude(ZeroPad2(seconds / 60), '\n');
    DigitsExclude(ZeroPad2(seconds % 60), '\n');
  }

  /** No segment line holds a line break, when no segment text does. */
  lemma SegmentLinesNoBreak(segments: seq<Segment>)
    requires forall i :: 0 <= i < |segments| ==> '\n' !in Strip(segments[i].text)
    ensures forall i :: 0 <= i < |SegmentLines(segments)| ==> '\n' !in SegmentLines(segments)[i]
  {
    forall i | 0 <= i < |segments| ensures '\n' !in SegmentLines(segments)[i] {
      SegmentLinesAt(segments, i);
      SegmentLineNoBreak(segments[i]);
    }
  }

  /** Splitting the formatted text at line breaks gives back the segment
      lines, when no segment text holds a line break itself. */
  lemma SegmentsTextSplit(segments: seq<Segment>)
    requires forall i :: 0 <= i < |segments| ==> '\n' !in Strip(segments[i].text)
    ensures Split(SegmentsText(segments), '\n') == SegmentLines(segments) + [""]
  {
    var lines := SegmentLines(segments);
    SegmentLinesNoBreak(segments);
    SplitTerminated(lines, "");
    assert Terminated(lines) + "" == Terminated(lines);
  }

  /** The separators a segment line is built from hold no line break. */
  lemma SeparatorsNoBreak()
    ensures '\n' !in "[" && '\n' !in "] - [" && '\n' !in "] - "
  {
  }

  lemma SegmentLineNoBreak(s: Segment)
    requires '\n' !in Strip(s.text)
    ensures '\n' !in SegmentLine(s)
  {
    FormatTimestampNoBreak(s.start);
    FormatTimestampNoBreak(s.end);
    SeparatorsNoBreak();
    assert '\n' !in SegmentTail(s);
  }

  /** The transcript text `transcribe_audio` returns. */
  function TranscriptText(response: Transcription): string
  {
    match response
    case Segments(segments) => Strip(SegmentsText(segments))
    case TranscriptionFailed(reason) => "Error transcribing audio: " + reason
  }

  /** One round of the formatting loop appends the segment's line and a
      line break. */
  lemma SegmentsTextStep(segments: seq<Segment>, i: nat)
    requires i < |segments|
    ensures SegmentsText(segments[..i + 1]) == SegmentsText(segments[..i]) + (SegmentLine(segments[i]) + "\n")
  {
    assert segments[..i + 1][..i] == segments[..i];
    TerminatedStep(SegmentLines(segments[..i]), SegmentLine(segments[i]));
  }

  /** `transcribe_audio` (main.py lines 361-396) once the service has
      answered: the formatting loop, or the error text. */
  method TranscribeAudio(response: Transcription) returns (transcript: string)
    ensures transcript == TranscriptText(response)
  {
    match response {
      case TranscriptionFailed(reason) =>
        transcript := "Error transcribing audio: " + reason;
      case Segments(segments) =>
        var formatted := "";
        for i := 0 to |segments|
          invariant formatted == SegmentsText(segments[..i])
        {
          var startTime := FormatTimestamp(segments[i].start);
          var endTime := FormatTimestamp(segments[i].end);
          var text := Strip(segments[i].text);
          var line := "[" + startTime + ("] - [" + endTime + "] - " + text);
          SegmentsTextStep(segments, i);
          formatted := formatted + (line + "\n");
        }
        assert segments[..|segments|] == segments;
        transcript := Strip(formatted);
    }
  }

  // ================================================= save_transcript_to_json

  /** The JSON path (main.py lines 443-450): `<stem>_transcript.json` in a
      `transcripts` directory beside the audio. */
  function SidecarPath(audioPath: string): string
  {
    Join(Join(Dirname(audioPath), "transcripts"), Stem(audioPath) + "_transcript.json")
  }

  lemma SidecarPathSpec(audioPath: string)
    ensures Basename(SidecarPath(audioPath)) == Stem(audioPath) + "_transcript.json"
    ensures Dirname(SidecarPath(audioPath)) == Join(Dirname(audioPath), "transcripts")
  {
    var dir := Join(Dirname(audioPath), "transcripts");
    var name := Stem(audioPath) + "_transcript.json";
    assert '/' !in name;
    BasenameOfJoin(dir, name);
    DirnameOfJoin(dir, name);
  }

  /** The saved record; `keyPoints` is absent when no list, or an empty one,
      was given. */
  datatype TranscriptRecord = TranscriptRecord(audioPath: string, transcript: string, timestamp: string,
                                               keyPoints: Option<seq<string>>)

  /** `transcript_data` (main.py lines 452-460); `now` is the ISO time of
      saving. */
  function TranscriptRecordOf(audioPath: string, transcript: string, keyPoints: Option<seq<string>>,
                              now: string): (r: TranscriptRecord)
    ensures r.audioPath == audioPath && r.transcript == transcript && r.timestamp == now
    ensures r.keyPoints.Some? <==> keyPoints.Some? && keyPoints.value != []
    ensures r.keyPoints.Some? ==> r.keyPoints == keyPoints
  {
    TranscriptRecord(audioPath, transcript, now,
                     if keyPoints.Some? && keyPoints.value != [] then keyPoints else None)
  }

  // =========================================================== process_audio

  /** What `process_audio` returns: the transcript, its key points and the
      JSON path, or an error text. */
  datatype AudioReport = AudioProcessed(transcript: string, keyPoints: seq<string>, jsonPath: string)
                       | AudioError(message: string)

  /** `process_audio` (main.py lines 509-558). Whether the audio exists, the
      transcription service's answer, the failure saving the JSON raised (if
      any) and the time of saving are inputs; `saved` is the record written. */
  method ProcessAudio(audioPath: string, audioExists: bool, response: Transcription,
                      saveFailure: Option<string>, now: string)
    returns (r: AudioReport, saved: Option<TranscriptRecord>)
    ensures !audioExists ==> r == AudioError("Audio file does not exist: " + audioPath) && saved == None
    ensures audioExists && saveFailure.Some? ==> r == AudioError(saveFailure.value) && saved == None
    ensures audioExists && saveFailure.None? ==>
      && r.AudioProcessed?
      && r.transcript == TranscriptText(response)
      && r.keyPoints == KeyPoints(r.transcript)
      && r.jsonPath == SidecarPath(audioPath)
      && saved == Some(TranscriptRecordOf(audioPath, r.transcript, Some(r.keyPoints), now))
  {
    saved := None;
    if !audioExists {
      r := AudioError("Audio file does not exist: " + audioPath);
      return;
    }
    var transcript := TranscribeAudio(response);
    var keyPoints := ExtractKeyPoints(transcript);
    if saveFailure.Some? {
      r := AudioError(saveFailure.value);
      return;
    }
    var jsonPath := SidecarPath(audioPath);
    saved := Some(TranscriptRecordOf(audioPath, transcript, Some(keyPoints), now));
    r := AudioProcessed(transcript, keyPoints, jsonPath);
  }
}
