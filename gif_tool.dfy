/**
 * The GIF tool's state and its three routines. The program keeps its
 * input fields, messages, progress and `fileMap` in globals that the
 * routines update in place; here they are the fields of one `App` object.
 *
 * The directory listing and ffmpeg's output are parameters, and so are the
 * two outcomes the program cannot control: whether the log file could be
 * opened and whether `popen` started the process.
 */
module GifTool {
  import opened Text
  import opened Stoi
  import opened Directory
  import opened RenamePlan
  import opened Command
  import opened Progress

  const LogFileError: string := "错误：无法创建日志文件"
  const LaunchError: string := "错误：无法启动ffmpeg进程"

  /** The width `std::setw(3)` gives the frame counter in the new names. */
  const CounterWidth: nat := 3

  class App {
    var outputPath: string
    var framerate: string
    var width: string
    var quality: string
    var loopCount: string
    var extension: string
    var commandDisplay: string
    var errorMessage: string
    var resultMessage: string
    var progress: real
    var isRunning: bool
    /** Digit string -> file name; filled by `RenameFiles` and never cleared. */
    var fileMap: map<string, string>

    /** Every key of `fileMap` is a non-empty digit string. */
    ghost predicate Valid()
      reads this
    {
      NumberedMap(fileMap)
    }

    /** The input fields as `GenerateCommand` reads them. */
    function Fields(): Params
      reads this`outputPath, this`framerate, this`width, this`quality, this`loopCount, this`extension
    {
      Params(outputPath, framerate, width, quality, loopCount, extension)
    }

    /** The globals' initial values. */
    constructor()
      ensures Valid()
      ensures Fields() == Params("output.gif", "10", "320", "", "0", "jpg")
      ensures commandDisplay == [] && errorMessage == [] && resultMessage == []
      ensures progress == 0.0 && !isRunning && fileMap == map[]
    {
      outputPath := "output.gif";
      framerate := "10";
      width := "320";
      quality := "";
      loopCount := "0";
      extension := "jpg";
      commandDisplay := "";
      errorMessage := "";
      resultMessage := "";
      progress := 0.0;
      isRunning := false;
      fileMap := map[];
    }

    /**
     * `RenameFiles`: add the numbered files with extension "." + extension
     * to `fileMap` (keeping what is already there), sort the entries by
     * number and plan one rename per entry, to "image_" + 3-digit counter +
     * "." + extension. Each planned rename stands for one `fs::rename`.
     */
    method RenameFiles(listing: seq<Entry>) returns (sorted: seq<Numbered>, plan: seq<Rename>)
      requires Valid()
      requires SortDoesNotThrow(Collect(fileMap, listing, "." + extension))
      modifies this`fileMap
      ensures Valid()
      ensures fileMap == Collect(old(fileMap), listing, "." + extension)
      ensures ListsEntries(sorted, fileMap) && SortedByNumber(sorted)
      ensures plan == PlanFor(sorted, CounterWidth, "." + extension)
    {
      CollectNumbers(fileMap, listing, "." + extension);
      fileMap := CollectNumbered(fileMap, listing, "." + extension);
      sorted := SortedEntries(fileMap);
      plan := PlanRenames(sorted, CounterWidth, "." + extension);
    }

    /**
     * `GenerateCommand`: sets the error message and the command shown from
     * the current input fields (see `Generate`).
     */
    method GenerateCommand()
      modifies this`errorMessage, this`commandDisplay
      ensures errorMessage == ErrorText(Fields())
      ensures commandDisplay == CommandDisplay(Fields())
    {
      var p := Fields();
      errorMessage, commandDisplay := Generate(p);
      assert Fields() == p;
    }

    /**
     * `ExecuteCommand`, given ffmpeg's output as the sequence of chunks
     * `fgets` returns. Nothing happens when there is an error message.
     * Otherwise the progress and result are reset, the two start-up
     * failures end the run with their message, and each chunk updates the
     * frame, smooths the progress towards `frame / fileMap.size()` and
     * collects error lines. When the target is +infinity (frames reported
     * while `fileMap` is empty) the smoothing loop never ends: the model
     * stops there, `isRunning` stays true and `progress` keeps its value from
     * before that chunk (where the source's endless 0.01 steps start).
     */
    method ExecuteCommand(output: seq<string>, logOpened: bool, launched: bool)
      requires errorMessage == [] && logOpened && launched ==> FramesFitInt(output, |fileMap|)
      modifies this`progress, this`resultMessage, this`isRunning
      ensures old(errorMessage) != [] ==>
        progress == old(progress) && resultMessage == old(resultMessage) && isRunning == old(isRunning)
      ensures old(errorMessage) == [] && !logOpened ==>
        progress == 0.0 && resultMessage == LogFileError && !isRunning
      ensures old(errorMessage) == [] && logOpened && !launched ==>
        progress == 0.0 && resultMessage == LaunchError && !isRunning
      ensures old(errorMessage) == [] && logOpened && launched ==>
        var s := ScanLines(output, |fileMap|);
        progress == s.progress
        && (s.stuck ==> isRunning && resultMessage == s.errors)
        && (!s.stuck ==> !isRunning && resultMessage == ResultMessage(s.errors))
    {
      var totalFrames := |fileMap|;

      if errorMessage != [] {
        return;
      }
      progress := 0.0;
      resultMessage := "";
      isRunning := true;

      if !logOpened {
        resultMessage := LogFileError;
        isRunning := false;
        return;
      }
      if !launched {
        resultMessage := LaunchError;
        isRunning := false;
        return;
      }

      var stuck := ReadOutput(output, totalFrames);
      if stuck {
        // `while (progress < inf)` never terminates: the run stops here.
        return;
      }

      isRunning := false;
      if resultMessage == [] {
        resultMessage := SuccessMessage;
      } else {
        resultMessage := FailureHeader + resultMessage;
      }
    }

    /**
     * The `fgets` loop: each chunk updates the frame, smooths the progress
     * towards `frame / totalFrames` and appends the chunk when it is an error
     * line. Returns true, leaving the rest unread, when the smoothing loop
     * cannot end.
     */
    method ReadOutput(output: seq<string>, totalFrames: nat) returns (stuck: bool)
      requires progress == 0.0 && resultMessage == []
      requires FramesFitInt(output, totalFrames)
      modifies this`progress, this`resultMessage
      ensures var s := ScanLines(output, totalFrames);
        stuck == s.stuck && progress == s.progress && resultMessage == s.errors
    {
      var currentFrame: nat := 0;
      var k := 0;
      while k < |output|
        invariant 0 <= k <= |output|
        invariant ScanLines(output[..k], totalFrames) == Scan(currentFrame, progress, resultMessage, false)
      {
        var line := output[k];
        ScanOneMore(output, k, totalFrames);
        ghost var next := Step(Scan(currentFrame, progress, resultMessage, false), line, totalFrames);
        var marker := FrameMarker(line);
        if marker.Some? {
          // `std::stoi` does not throw: a chunk that is read has an `int`-sized frame.
          assert marker.value <= IntMax;
          currentFrame := marker.value;
        }
        var target := TargetOf(currentFrame, totalFrames);
        if target.Infinite? {
          StuckStays(output, k + 1, totalFrames);
          return true;
        }
        ghost var smoothed := Smooth(progress, target);
        ghost var collected := resultMessage + (if IsErrorLine(line) then line else []);
        assert next == Scan(currentFrame, smoothed, collected, false);
        if target.Finite? {
          SmoothTowards(target.value);
        }
        if IsErrorLine(line) {
          resultMessage := resultMessage + line;
        }
        assert progress == smoothed && resultMessage == collected;
        k := k + 1;
      }
      assert output[..k] == output;
      return false;
    }

    /** The inner smoothing loop: add 0.01 until the target is reached, never overshooting it. */
    method SmoothTowards(target: real)
      modifies this`progress
      ensures progress == Smooth(old(progress), Finite(target))
    {
      ghost var start := progress;
      while progress < target
        invariant start < target ==> start <= progress <= target
        invariant start >= target ==> progress == start
        decreases if progress < target then ((target - progress) * 100.0).Floor + 1 else 0
      {
        progress := progress + SmoothStep;
        if progress > target {
          progress := target;
        }
      }
    }
  }

  /** Unfolds `ErrorText` and `CommandDisplay` at a given list of failed checks. */
  lemma ShownText(p: Params, failed: seq<Check>)
    requires failed == FailedChecks(ReadingsOf(p), QualityGiven(p))
    ensures ErrorText(p) == ErrorTextOf(failed)
    ensures CommandDisplay(p) == if ErrorTextOf(failed) == [] then CommandLine(p) else []
  {
  }

  /** The four checks in the order the program runs them, each pushing its message when it fails. */
  method CheckReadings(r: Readings, qualityGiven: bool) returns (errors: seq<string>, ghost failed: seq<Check>)
    ensures failed == FailedChecks(r, qualityGiven)
    ensures errors == Messages(failed)
    ensures errors == Messages(FailedChecks(r, qualityGiven))
  {
    errors, failed := CheckSizes(r, qualityGiven);
    errors, failed := CheckQualityAndLoop(errors, failed, r, qualityGiven);
  }

  /** The frame rate and width checks: each must read as a number above 0. */
  method CheckSizes(r: Readings, ghost qualityGiven: bool) returns (errors: seq<string>, ghost failed: seq<Check>)
    ensures failed == Run(Run([], Framerate, r, qualityGiven), Width, r, qualityGiven)
    ensures errors == Messages(failed)
    ensures errors == Messages(Run(Run([], Framerate, r, qualityGiven), Width, r, qualityGiven))
  {
    errors, failed := [], [];
    assert errors == Messages(failed);
    var tmp := r.framerate;
    var ok := !(tmp.None? || tmp.value <= 0);
    errors, failed := Report(errors, failed, Framerate, ok, r, qualityGiven);
    tmp := r.width;
    ok := !(tmp.None? || tmp.value <= 0);
    errors, failed := Report(errors, failed, Width, ok, r, qualityGiven);
  }

  /** The quality check (only for a given quality: 1 to 31) and the loop count check (at least 0). */
  method CheckQualityAndLoop(errors: seq<string>, ghost failed: seq<Check>, r: Readings, qualityGiven: bool)
    returns (errors': seq<string>, ghost failed': seq<Check>)
    requires errors == Messages(failed)
    ensures failed' == Run(Run(failed, Quality, r, qualityGiven), LoopCount, r, qualityGiven)
    ensures errors' == Messages(failed')
  {
    var ok := true;
    if qualityGiven {
      var q := r.quality;
      ok := !(q.None? || q.value < 1 || q.value > 31);
    }
    errors', failed' := Report(errors, failed, Quality, ok, r, qualityGiven);
    var tmp := r.loopCount;
    ok := !(tmp.None? || tmp.value < 0);
    errors', failed' := Report(errors', failed', LoopCount, ok, r, qualityGiven);
  }

  /** `errors.push_back(message)` when check `c` fails. */
  method Report(errors: seq<string>, ghost failed: seq<Check>, c: Check, ok: bool, ghost r: Readings, ghost qualityGiven: bool)
    returns (errors': seq<string>, ghost failed': seq<Check>)
    requires errors == Messages(failed) && ok == Passes(c, r, qualityGiven)
    ensures failed' == Run(failed, c, r, qualityGiven)
    ensures errors' == Messages(failed')
  {
    errors', failed' := errors, failed;
    if !ok {
      MessagesConcat(failed, [c]);
      errors', failed' := errors + [Message(c)], failed + [c];
    }
  }

  /**
   * The body of `GenerateCommand` on the input fields: run the four checks
   * in order, collect one message per failure, join them under the error
   * header, and build the command line only when there is no error.
   */
  method Generate(p: Params) returns (message: string, command: string)
    ensures message == ErrorText(p)
    ensures command == CommandDisplay(p)
  {
    var errors, failed := CheckParams(p);
    ShownText(p, failed);
    message := "";
    if errors != [] {
      message := JoinErrors(errors);
    }
    command := "";
    if message == [] {
      command := BuildCommand(p);
    }
  }

  /**
   * The four checks on what `isValidNumber` reads from the fields. (The
   * program reads the quality only when its field is not empty; reading it
   * anyway changes nothing, as reading has no effect and an empty quality
   * is never checked.)
   */
  method CheckParams(p: Params) returns (errors: seq<string>, ghost failed: seq<Check>)
    ensures failed == FailedChecks(ReadingsOf(p), QualityGiven(p))
    ensures errors == Messages(failed)
    ensures errors == Messages(FailedChecks(ReadingsOf(p), QualityGiven(p)))
  {
    var readings := Readings(IsValidNumber(p.framerate), IsValidNumber(p.width), IsValidNumber(p.quality), IsValidNumber(p.loopCount));
    errors, failed := CheckReadings(readings, p.quality != []);
  }

  /** `error_message = "错误："` followed by `"\n  • " + err` for each message. */
  method JoinErrors(errors: seq<string>) returns (text: string)
    requires errors != []
    ensures text == ErrorHeader + Bulleted(errors)
  {
    text := ErrorHeader;
    var i := 0;
    while i < |errors|
      invariant 0 <= i <= |errors|
      invariant text == ErrorHeader + Bulleted(errors[..i])
    {
      assert errors[..i + 1][..i] == errors[..i];
      text := text + Bullet + errors[i];
      i := i + 1;
    }
    assert errors[..i] == errors;
  }

  /** The command line, with the quality flag only when a quality is given. */
  method BuildCommand(p: Params) returns (command: string)
    ensures command == CommandLine(p)
  {
    command := "ffmpeg -hide_banner -loglevel info -framerate " + p.framerate
      + " -i image_%03d." + p.extension
      + " -vf \"scale=" + p.width + ":-1\"";
    if p.quality != [] {
      command := command + " -q:v " + p.quality;
    }
    command := command + " -loop " + p.loopCount + " -y " + p.outputPath;
  }
}
