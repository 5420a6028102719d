/**
 * What `ExecuteCommand` makes of ffmpeg's output, one `fgets` chunk
 * ("line") at a time: the frame counter read from `frame=\s*(\d+)`, the
 * target `frame / total`, the progress value that the smoothing loop
 * raises towards the target and never lowers, and the chunks that mention
 * "Error" or "failed", which are appended to the result message.
 *
 * The division is `float / int`: with no frame at all (`total == 0`) it is
 * 0/0 = NaN (the smoothing loop does not run, because `progress < NaN` is
 * false) or n/0 = +infinity (the smoothing loop never ends).
 */
module Progress {
  import opened Text
  import opened Stoi

  // ---------------------------------------------------------------------
  // Reading the frame counter: `std::regex_search(line, frame=\s*(\d+))`

  /** At index `i` the line holds "frame=", white space, and at least one digit. */
  predicate MarkerAt(line: string, i: int) {
    OccursAt(line, "frame=", i) && var rest := SkipSpaces(line[i + 6..]); rest != [] && IsDigit(rest[0])
  }

  /** The digits of a marker at `i`, read as a number (`std::stoi(matches[1])`). */
  function MarkerValue(line: string, i: int): nat
    requires MarkerAt(line, i)
  {
    DigitsValue(LeadingDigits(SkipSpaces(line[i + 6..])))
  }

  /** The search from index `i` onwards: the first marker wins. */
  function MarkerFrom(line: string, i: nat): (r: Option<nat>)
    requires i <= |line|
    decreases |line| - i
  {
    if MarkerAt(line, i) then Some(MarkerValue(line, i))
    else if i == |line| then None
    else MarkerFrom(line, i + 1)
  }

  /** The frame number of the line, when the regular expression finds one. */
  function FrameMarker(line: string): Option<nat>
  {
    MarkerFrom(line, 0)
  }

  /** When the search from `i` finds a frame, it is the value of the leftmost marker at or after `i`. */
  lemma {:induction false} MarkerFromFound(line: string, i: nat) returns (j: nat)
    requires i <= |line| && MarkerFrom(line, i).Some?
    ensures i <= j <= |line| && MarkerAt(line, j) && MarkerFrom(line, i).value == MarkerValue(line, j)
    ensures forall k :: i <= k < j ==> !MarkerAt(line, k)
    decreases |line| - i
  {
    if MarkerAt(line, i) {
      j := i;
    } else {
      j := MarkerFromFound(line, i + 1);
      forall k | i <= k < j
        ensures !MarkerAt(line, k)
      {
        if k == i {
          assert !MarkerAt(line, i);
        }
      }
    }
  }

  /** The search from `i` finds nothing exactly when there is no marker at or after `i`. */
  lemma {:induction false} MarkerFromNone(line: string, i: nat)
    requires i <= |line|
    ensures MarkerFrom(line, i).None? <==> forall k :: i <= k <= |line| ==> !MarkerAt(line, k)
    decreases |line| - i
  {
    if !MarkerAt(line, i) && i < |line| {
      MarkerFromNone(line, i + 1);
      if forall k :: i + 1 <= k <= |line| ==> !MarkerAt(line, k) {
        forall k | i <= k <= |line|
          ensures !MarkerAt(line, k)
        {
        }
      }
    }
  }

  /** The frame read from a line is the value of its leftmost marker, and nothing is read only when there is none. */
  lemma FrameMarkerLeftmost(line: string) returns (j: nat)
    ensures FrameMarker(line).Some? ==>
      j <= |line| && MarkerAt(line, j) && FrameMarker(line).value == MarkerValue(line, j)
      && forall k :: 0 <= k < j ==> !MarkerAt(line, k)
    ensures FrameMarker(line).None? <==> forall k :: 0 <= k <= |line| ==> !MarkerAt(line, k)
  {
    MarkerFromNone(line, 0);
    j := 0;
    if FrameMarker(line).Some? {
      j := MarkerFromFound(line, 0);
    }
  }

  /** A line of ffmpeg's status output: "frame=   12 fps=..." gives 12. */
  lemma StatusLineFrame()
    ensures FrameMarker("frame=   12 fps=0") == Some(12)
  {
    var line := "frame=   12 fps=0";
    StatusLineMarker();
    assert MarkerFrom(line, 0) == Some(MarkerValue(line, 0));
  }

  lemma StatusLineMarker()
    ensures MarkerAt("frame=   12 fps=0", 0) && MarkerValue("frame=   12 fps=0", 0) == 12
  {
    var line := "frame=   12 fps=0";
    assert OccursAt(line, "frame=", 0) by {
      assert line[..6] == "frame=";
    }
    var rest := line[6..];
    StatusLineRest(rest);
    TwelveValue();
  }

  lemma StatusLineRest(rest: string)
    requires rest == "   12 fps=0"
    ensures SkipSpaces(rest) == "12 fps=0" && LeadingDigits("12 fps=0") == "12"
  {
    assert rest == "   " + "12 fps=0";
    SkipSpacesOver("   ", "12 fps=0");
    assert "12 fps=0" == "12" + " fps=0";
    LeadingDigitsOver("12", " fps=0");
  }

  lemma TwelveValue()
    ensures AllDigits("12") && DigitsValue("12") == 12
  {
    assert "12"[..1] == "1";
    assert "1"[..0] == [];
  }


  // ---------------------------------------------------------------------
  // Target and smoothing

  /** `static_cast<float>(current_frame) / total_frames`. */
  datatype Target = Finite(value: real) | NotANumber | Infinite

  function TargetOf(frame: nat, total: nat): (t: Target)
    ensures t.Finite? <==> total > 0
    ensures t.Finite? ==> 0.0 <= t.value && (frame <= total ==> t.value <= 1.0)
    ensures t.NotANumber? <==> total == 0 && frame == 0
  {
    if total > 0 then Finite(frame as real / total as real)
    else if frame == 0 then NotANumber
    else Infinite
  }

  /** The smoothing step of 0.01 */
  const SmoothStep: real := 0.01

  /**
   * Where the smoothing loop leaves `progress` for a target it can reach:
   * never lower than before, at least the target, and either unchanged or
   * exactly the target. A NaN target leaves it unchanged.
   */
  function Smooth(p: real, t: Target): (r: real)
    requires !t.Infinite?
    ensures r >= p
    ensures t.Finite? ==> r >= t.value && (r == p || r == t.value)
    ensures t.NotANumber? ==> r == p
  {
    if t.Finite? && p < t.value then t.value else p
  }

  // ---------------------------------------------------------------------
  // Error lines and the result message

  predicate IsErrorLine(line: string) {
    Contains(line, "Error") || Contains(line, "failed")
  }

  const SuccessMessage: string := "成功：GIF已生成！"
  const FailureHeader: string := "失败：\n"

  /** The message at the end of a run: success exactly when no error text was collected. */
  function ResultMessage(errors: string): (r: string)
    ensures r == SuccessMessage <==> errors == []
  {
    if errors == [] then SuccessMessage
    else
      assert (FailureHeader + errors)[0] != SuccessMessage[0];
      FailureHeader + errors
  }

  /** The error lines of `lines`, in order. */
  function ErrorLines(lines: seq<string>): (r: seq<string>)
    ensures forall k :: 0 <= k < |r| ==> IsErrorLine(r[k])
  {
    if lines == [] then []
    else ErrorLines(lines[..|lines| - 1]) + (if IsErrorLine(lines[|lines| - 1]) then [lines[|lines| - 1]] else [])
  }

  function Concat(parts: seq<string>): string
  {
    if parts == [] then [] else Concat(parts[..|parts| - 1]) + parts[|parts| - 1]
  }

  // ---------------------------------------------------------------------
  // The whole output

  /**
   * The state after some chunks: the current frame, the progress, the error
   * text collected so far, and whether the smoothing loop got stuck on an
   * infinite target (after which nothing more is read).
   */
  datatype Scan = Scan(frame: nat, progress: real, errors: string, stuck: bool)

  const Start: Scan := Scan(0, 0.0, [], false)

  /**
   * One chunk: update the frame, smooth towards the target, collect an error
   * line. An infinite target marks the scan stuck, with the progress it had
   * when the endless smoothing loop starts.
   */
  function Step(s: Scan, line: string, total: nat): (r: Scan)
  {
    if s.stuck then s
    else
      var frame := match FrameMarker(line) case Some(v) => v case None => s.frame;
      var t := TargetOf(frame, total);
      if t.Infinite? then Scan(frame, s.progress, s.errors, true)
      else Scan(frame, Smooth(s.progress, t), s.errors + (if IsErrorLine(line) then line else []), false)
  }

  /**
   * One chunk never lowers the progress and at most appends itself, as an
   * error line, to the collected text; once stuck, nothing changes.
   */
  lemma StepKeeps(s: Scan, line: string, total: nat)
    ensures s.stuck ==> Step(s, line, total) == s
    ensures Step(s, line, total).progress >= s.progress
    ensures Step(s, line, total).errors == s.errors
      || (IsErrorLine(line) && Step(s, line, total).errors == s.errors + line)
  {
  }

  function ScanLines(lines: seq<string>, total: nat): Scan
  {
    if lines == [] then Start
    else Step(ScanLines(lines[..|lines| - 1], total), lines[|lines| - 1], total)
  }

  /**
   * `std::stoi` of the marker of every chunk that is read fits in `int`
   * (otherwise it throws inside the worker thread). A chunk is read while
   * the smoothing loop has not hung on an earlier one.
   */
  ghost predicate FramesFitInt(lines: seq<string>, total: nat) {
    forall i :: 0 <= i < |lines| && !ScanLines(lines[..i], total).stuck && FrameMarker(lines[i]).Some? ==>
      FrameMarker(lines[i]).value <= IntMax
  }

  /** Reading one more chunk is one more `Step`. */
  lemma ScanOneMore(lines: seq<string>, k: nat, total: nat)
    requires k < |lines|
    ensures ScanLines(lines[..k + 1], total) == Step(ScanLines(lines[..k], total), lines[k], total)
  {
    assert lines[..k + 1][..k] == lines[..k];
  }

  /** The progress bar never moves backwards while the output is read, and never drops below 0. */
  lemma {:induction false} ProgressMonotone(lines: seq<string>, i: nat, total: nat)
    requires i <= |lines|
    ensures 0.0 <= ScanLines(lines[..i], total).progress <= ScanLines(lines, total).progress
  {
    if i < |lines| {
      var n := |lines| - 1;
      var init := lines[..n];
      assert init[..i] == lines[..i];
      ProgressMonotone(init, i, total);
    } else {
      assert lines[..i] == lines;
      ProgressNonNegative(lines, total);
    }
  }

  lemma {:induction false} ProgressNonNegative(lines: seq<string>, total: nat)
    ensures ScanLines(lines, total).progress >= 0.0
  {
    if lines != [] {
      ProgressNonNegative(lines[..|lines| - 1], total);
    }
  }

  /** Once stuck, the rest of the output changes nothing. */
  lemma {:induction false} StuckStays(lines: seq<string>, i: nat, total: nat)
    requires i <= |lines| && ScanLines(lines[..i], total).stuck
    ensures ScanLines(lines, total) == ScanLines(lines[..i], total)
  {
    if i < |lines| {
      var init := lines[..|lines| - 1];
      assert init[..i] == lines[..i];
      StuckStays(init, i, total);
    } else {
      assert lines[..i] == lines;
    }
  }

  /** Some line of `lines` carries the frame number `v`. */
  ghost predicate IsMarker(lines: seq<string>, v: nat) {
    exists j :: 0 <= j < |lines| && FrameMarker(lines[j]) == Some(v)
  }

  /**
   * With at least one frame to show, the loop never gets stuck, and the
   * progress is the largest `frame / total` reported so far: at least every
   * reported ratio, and 0 or one of them.
   */
  lemma {:induction false} ProgressIsLargestFrame(lines: seq<string>, total: nat)
    requires total > 0
    ensures !ScanLines(lines, total).stuck
    ensures forall j :: 0 <= j < |lines| && FrameMarker(lines[j]).Some? ==>
      ScanLines(lines, total).progress >= FrameMarker(lines[j]).value as real / total as real
    ensures ScanLines(lines, total).progress == 0.0
      || exists v: nat :: IsMarker(lines, v) && ScanLines(lines, total).progress == v as real / total as real
    ensures ScanLines(lines, total).frame == 0 || IsMarker(lines, ScanLines(lines, total).frame)
  {
    if lines != [] {
      var n := |lines| - 1;
      var init := lines[..n];
      ProgressIsLargestFrame(init, total);
      var s := ScanLines(init, total);
      var r := ScanLines(lines, total);
      assert forall j :: 0 <= j < n ==> lines[j] == init[j];
      forall v: nat | IsMarker(init, v)
        ensures IsMarker(lines, v)
      {
        var j :| 0 <= j < |init| && FrameMarker(init[j]) == Some(v);
        assert lines[j] == init[j];
      }
      if FrameMarker(lines[n]).Some? {
        assert IsMarker(lines, FrameMarker(lines[n]).value);
      }
    }
  }

  /** With every reported frame within the total, the progress bar stays within [0, 1]. */
  lemma ProgressAtMostOne(lines: seq<string>, total: nat)
    requires total > 0
    requires forall j :: 0 <= j < |lines| && FrameMarker(lines[j]).Some? ==> FrameMarker(lines[j]).value <= total
    ensures 0.0 <= ScanLines(lines, total).progress <= 1.0
  {
    ProgressIsLargestFrame(lines, total);
    ProgressNonNegative(lines, total);
    var p := ScanLines(lines, total).progress;
    if p != 0.0 {
      var v: nat :| IsMarker(lines, v) && p == v as real / total as real;
      var j :| 0 <= j < |lines| && FrameMarker(lines[j]) == Some(v);
      assert v <= total;
    }
  }

  /** The target is not clamped: a frame number above the total pushes the progress above 1. */
  lemma ProgressNotClamped(lines: seq<string>, total: nat, j: nat)
    requires total > 0 && j < |lines|
    requires FrameMarker(lines[j]).Some? && FrameMarker(lines[j]).value > total
    ensures ScanLines(lines, total).progress > 1.0
  {
    ProgressIsLargestFrame(lines, total);
    var v := FrameMarker(lines[j]).value;
    RatioAboveOne(v as real, total as real);
  }

  lemma RatioAboveOne(x: real, t: real)
    requires t > 0.0 && x > t
    ensures x / t > 1.0
  {
    assert x / t * t == x;
  }

  /**
   * With no frame to show (`total == 0`), the loop gets stuck exactly when
   * some line reports a frame above 0; until then the progress stays 0.
   */
  lemma {:induction false} NoFramesStuck(lines: seq<string>)
    ensures ScanLines(lines, 0).stuck <==>
      exists j :: 0 <= j < |lines| && FrameMarker(lines[j]).Some? && FrameMarker(lines[j]).value > 0
    ensures !ScanLines(lines, 0).stuck ==> ScanLines(lines, 0).progress == 0.0 && ScanLines(lines, 0).frame == 0
  {
    if lines != [] {
      var n := |lines| - 1;
      var init := lines[..n];
      NoFramesStuck(init);
      assert forall j :: 0 <= j < n ==> lines[j] == init[j];
      if ScanLines(init, 0).stuck {
        var j :| 0 <= j < |init| && FrameMarker(init[j]).Some? && FrameMarker(init[j]).value > 0;
        assert lines[j] == init[j];
      }
    }
  }

  /** The result message holds the error lines read, in order and nothing else. */
  lemma {:induction false} ErrorsAreErrorLines(lines: seq<string>, total: nat)
    requires !ScanLines(lines, total).stuck
    ensures ScanLines(lines, total).errors == Concat(ErrorLines(lines))
  {
    if lines != [] {
      var n := |lines| - 1;
      var init := lines[..n];
      if ScanLines(init, total).stuck {
        assert false;
      }
      ErrorsAreErrorLines(init, total);
      var last := if IsErrorLine(lines[n]) then [lines[n]] else [];
      ConcatAppend(ErrorLines(init), last);
    }
  }

  lemma ConcatAppend(a: seq<string>, b: seq<string>)
    requires |b| <= 1
    ensures Concat(a + b) == Concat(a) + (if b == [] then [] else b[0])
  {
    if b == [] {
      assert a + b == a;
    } else {
      assert (a + b)[..|a|] == a;
    }
  }

  /** An error line is never empty, so the error text is empty exactly when no line is an error line. */
  lemma {:induction false} NoErrorText(lines: seq<string>)
    ensures Concat(ErrorLines(lines)) == [] <==> forall j :: 0 <= j < |lines| ==> !IsErrorLine(lines[j])
  {
    if lines != [] {
      var n := |lines| - 1;
      var init := lines[..n];
      NoErrorText(init);
      assert forall j :: 0 <= j < n ==> lines[j] == init[j];
      var last := if IsErrorLine(lines[n]) then [lines[n]] else [];
      ConcatAppend(ErrorLines(init), last);
      if IsErrorLine(lines[n]) {
        assert |lines[n]| >= 5;
      }
    }
  }

  /** A finished run reports success exactly when no line of the output mentions "Error" or "failed". */
  lemma SuccessIffNoErrorLine(lines: seq<string>, total: nat)
    requires !ScanLines(lines, total).stuck
    ensures ResultMessage(ScanLines(lines, total).errors) == SuccessMessage
      <==> forall j :: 0 <= j < |lines| ==> !IsErrorLine(lines[j])
  {
    ErrorsAreErrorLines(lines, total);
    NoErrorText(lines);
    var e := ScanLines(lines, total).errors;
    if e != [] {
      assert (FailureHeader + e)[0] != SuccessMessage[0];
    }
  }
}
