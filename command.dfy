/**
 * `GenerateCommand`: check the four numeric fields with `isValidNumber`,
 * turn the failed checks into a bulleted error message, and build the
 * ffmpeg command line only when there is no error.
 */
module Command {
  import opened Text
  import opened Stoi

  /** The user's input fields. */
  datatype Params = Params(
    outputPath: string,
    framerate: string,
    width: string,
    quality: string,
    loopCount: string,
    extension: string)

  /** The four parameter checks, in the order they run. */
  datatype Check = Framerate | Width | Quality | LoopCount

  function Message(c: Check): string
  {
    match c
    case Framerate => "帧率必须为正整数"
    case Width => "宽度必须为正整数"
    case Quality => "质量参数应为1-31（值越小质量越高）"
    case LoopCount => "循环次数必须为非负整数（0=无限循环）"
  }

  /** What `isValidNumber` reads from each numeric field (`None`: `std::stoi` threw). */
  datatype Readings = Readings(framerate: Option<int>, width: Option<int>, quality: Option<int>, loopCount: Option<int>)

  function ReadingsOf(p: Params): Readings
  {
    Readings(IsValidNumber(p.framerate), IsValidNumber(p.width), IsValidNumber(p.quality), IsValidNumber(p.loopCount))
  }

  /** The quality field is only checked, and only added to the command, when it is not empty. */
  predicate QualityGiven(p: Params) {
    p.quality != []
  }

  /** A reading that is a number above 0. */
  predicate Positive(v: Option<int>) {
    v.Some? && v.value > 0
  }

  /** Whether check `c` passes; the quality is only checked when the field is not empty. */
  predicate Passes(c: Check, r: Readings, qualityGiven: bool) {
    match c
    case Framerate => Positive(r.framerate)
    case Width => Positive(r.width)
    case Quality => !qualityGiven || (r.quality.Some? && 1 <= r.quality.value <= 31)
    case LoopCount => r.loopCount.Some? && r.loopCount.value >= 0
  }

  function Order(c: Check): nat
  {
    match c
    case Framerate => 0
    case Width => 1
    case Quality => 2
    case LoopCount => 3
  }

  /** Running check `c` after the checks that produced `failed`. */
  function Run(failed: seq<Check>, c: Check, r: Readings, qualityGiven: bool): seq<Check>
  {
    if Passes(c, r, qualityGiven) then failed else failed + [c]
  }

  /** The failed checks, in the order they run. */
  function FailedChecks(r: Readings, qualityGiven: bool): (failed: seq<Check>)
    ensures |failed| <= 4
  {
    var q := qualityGiven;
    Run(Run(Run(Run([], Framerate, r, q), Width, r, q), Quality, r, q), LoopCount, r, q)
  }

  /** The checks appear in the order they run, without repeats. */
  predicate InOrder(checks: seq<Check>) {
    forall i, j :: 0 <= i < j < |checks| ==> Order(checks[i]) < Order(checks[j])
  }

  /** A check is listed exactly when it fails, and the list follows the order of the checks without repeats. */
  lemma FailedChecksMembers(r: Readings, qualityGiven: bool)
    ensures forall c :: c in FailedChecks(r, qualityGiven) <==> !Passes(c, r, qualityGiven)
    ensures InOrder(FailedChecks(r, qualityGiven))
  {
    var q := qualityGiven;
    var s1 := Run([], Framerate, r, q);
    RunStep([], Framerate, r, q);
    var s2 := Run(s1, Width, r, q);
    RunStep(s1, Width, r, q);
    var s3 := Run(s2, Quality, r, q);
    RunStep(s2, Quality, r, q);
    RunStep(s3, LoopCount, r, q);
    forall c
      ensures c in FailedChecks(r, q) <==> !Passes(c, r, q)
    {
      match c
      case Framerate =>
      case Width =>
      case Quality =>
      case LoopCount =>
    }
  }

  /** One more check keeps the list in order and adds the check exactly when it fails. */
  lemma RunStep(failed: seq<Check>, c: Check, r: Readings, qualityGiven: bool)
    requires InOrder(failed) && forall x :: x in failed ==> Order(x) < Order(c)
    ensures InOrder(Run(failed, c, r, qualityGiven))
    ensures forall x :: x in Run(failed, c, r, qualityGiven) <==> x in failed || (x == c && !Passes(c, r, qualityGiven))
    ensures forall x :: x in Run(failed, c, r, qualityGiven) ==> Order(x) <= Order(c)
  {
  }

  /** The message of each check, in the same order. */
  function Messages(checks: seq<Check>): (r: seq<string>)
    ensures |r| == |checks|
    ensures forall i :: 0 <= i < |checks| ==> r[i] == Message(checks[i])
  {
    if checks == [] then [] else Messages(checks[..|checks| - 1]) + [Message(checks[|checks| - 1])]
  }

  /**
   * Messages are pushed in the order the checks fail: the messages of two
   * runs of checks, one after the other, are the messages of each in turn.
   */
  lemma {:induction false} MessagesConcat(a: seq<Check>, b: seq<Check>)
    ensures Messages(a + b) == Messages(a) + Messages(b)
    decreases |b|
  {
    if b == [] {
      assert a + b == a;
    } else {
      var init := b[..|b| - 1];
      assert (a + b)[..|a + b| - 1] == a + init;
      MessagesConcat(a, init);
    }
  }

  const ErrorHeader: string := "错误："
  const Bullet: string := "\n  • "

  /** `error_message += "\n  • " + err` for every message in turn. */
  function Bulleted(messages: seq<string>): string
  {
    if messages == [] then [] else Bulleted(messages[..|messages| - 1]) + Bullet + messages[|messages| - 1]
  }

  /** The error message for a list of failed checks. */
  function ErrorTextOf(failed: seq<Check>): string
  {
    if failed == [] then [] else ErrorHeader + Bulleted(Messages(failed))
  }

  /** The error message `GenerateCommand` leaves behind. */
  function ErrorText(p: Params): string
  {
    ErrorTextOf(FailedChecks(ReadingsOf(p), QualityGiven(p)))
  }

  /** The command line built from valid parameters. */
  function CommandLine(p: Params): string
  {
    "ffmpeg -hide_banner -loglevel info -framerate " + p.framerate
    + " -i image_%03d." + p.extension
    + " -vf \"scale=" + p.width + ":-1\""
    + (if p.quality == [] then [] else " -q:v " + p.quality)
    + " -loop " + p.loopCount + " -y " + p.outputPath
  }

  /** The command shown after `GenerateCommand`: empty when any check fails. */
  function CommandDisplay(p: Params): string
  {
    if ErrorText(p) == [] then CommandLine(p) else []
  }

  // ---------------------------------------------------------------------
  // Properties

  /** There is no error message exactly when every check passes. */
  lemma NoErrorIffValid(r: Readings, qualityGiven: bool)
    ensures ErrorTextOf(FailedChecks(r, qualityGiven)) == [] <==> forall c :: Passes(c, r, qualityGiven)
  {
    var failed := FailedChecks(r, qualityGiven);
    FailedChecksMembers(r, qualityGiven);
    if failed != [] {
      assert !Passes(failed[0], r, qualityGiven);
      assert |ErrorHeader + Bulleted(Messages(failed))| > 0;
    }
  }

  /** The command is built exactly when every check passes (the command line is never empty). */
  lemma CommandOnlyWhenValid(p: Params)
    ensures CommandDisplay(p) != [] <==> forall c :: Passes(c, ReadingsOf(p), QualityGiven(p))
  {
    NoErrorIffValid(ReadingsOf(p), QualityGiven(p));
  }

  /** `Bulleted` writes each message after its own bullet. */
  lemma {:induction false} BulletedLists(messages: seq<string>, i: nat)
    requires i < |messages|
    ensures Contains(Bulleted(messages), Bullet + messages[i])
  {
    var n := |messages| - 1;
    var init := messages[..n];
    var text := Bulleted(messages);
    if i < n {
      BulletedLists(init, i);
      assert init[i] == messages[i];
      var k :| 0 <= k <= |Bulleted(init)| - |Bullet + messages[i]| && OccursAt(Bulleted(init), Bullet + messages[i], k);
      assert text == Bulleted(init) + (Bullet + messages[n]);
      assert text[k..k + |Bullet + messages[i]|] == Bulleted(init)[k..k + |Bullet + messages[i]|];
      assert OccursAt(text, Bullet + messages[i], k);
    } else {
      var k := |Bulleted(init)|;
      assert text == Bulleted(init) + (Bullet + messages[n]);
      assert text[k..] == Bullet + messages[n];
      assert OccursAt(text, Bullet + messages[i], k);
    }
  }

  /** Every failed check's message appears in the error text, after its bullet. */
  lemma ErrorListsEachFailure(r: Readings, qualityGiven: bool, c: Check)
    requires !Passes(c, r, qualityGiven)
    ensures Contains(ErrorTextOf(FailedChecks(r, qualityGiven)), Bullet + Message(c))
  {
    var failed := FailedChecks(r, qualityGiven);
    FailedChecksMembers(r, qualityGiven);
    var messages := Messages(failed);
    var i :| 0 <= i < |failed| && failed[i] == c;
    BulletedLists(messages, i);
    var b := Bulleted(messages);
    var needle := Bullet + Message(c);
    var k :| 0 <= k <= |b| - |needle| && OccursAt(b, needle, k);
    HeaderShifts(b, needle, k);
  }

  lemma HeaderShifts(b: string, needle: string, k: int)
    requires OccursAt(b, needle, k)
    ensures Contains(ErrorHeader + b, needle)
  {
    var text := ErrorHeader + b;
    assert text[|ErrorHeader| + k..|ErrorHeader| + k + |needle|] == b[k..k + |needle|];
    assert OccursAt(text, needle, |ErrorHeader| + k);
  }

  /** A quality given by the user ends up in the command as ` -q:v <quality>`. */
  lemma QualityFlagPresent(p: Params)
    requires p.quality != []
    ensures Contains(CommandLine(p), " -q:v " + p.quality)
  {
    var head := "ffmpeg -hide_banner -loglevel info -framerate " + p.framerate
      + " -i image_%03d." + p.extension + " -vf \"scale=" + p.width + ":-1\"";
    var flag := " -q:v " + p.quality;
    var tail := " -loop " + p.loopCount + " -y " + p.outputPath;
    assert CommandLine(p) == head + flag + tail;
    assert (head + flag + tail)[|head|..|head| + |flag|] == flag;
    assert OccursAt(CommandLine(p), flag, |head|);
  }

  /** The command ends with the output path, after `-y` (overwrite without asking). */
  lemma CommandEndsWithOutput(p: Params)
    ensures |CommandLine(p)| >= |" -y " + p.outputPath|
    ensures CommandLine(p)[|CommandLine(p)| - |" -y " + p.outputPath|..] == " -y " + p.outputPath
  {
    var tail := " -y " + p.outputPath;
    var head := CommandLine(p)[..|CommandLine(p)| - |tail|];
    assert CommandLine(p) == ("ffmpeg -hide_banner -loglevel info -framerate " + p.framerate
      + " -i image_%03d." + p.extension
      + " -vf \"scale=" + p.width + ":-1\""
      + (if p.quality == [] then [] else " -q:v " + p.quality)
      + " -loop " + p.loopCount) + tail;
  }

  // ---------------------------------------------------------------------
  // Examples

  /** The default fields pass every check. */
  lemma DefaultsValid(r: Readings)
    requires r == Readings(IsValidNumber("10"), IsValidNumber("320"), IsValidNumber(""), IsValidNumber("0"))
    ensures forall c :: Passes(c, r, false)
    ensures ErrorTextOf(FailedChecks(r, false)) == []
  {
    DefaultReadings();
    NoErrorIffValid(r, false);
  }

  lemma DefaultReadings()
    ensures IsValidNumber("10") == Some(10) && IsValidNumber("320") == Some(320) && IsValidNumber("0") == Some(0)
  {
    assert "10" == SignText(NoSign) + (DecimalString(10) + "");
    assert "320" == SignText(NoSign) + (DecimalString(320) + "");
    assert "0" == SignText(NoSign) + (DecimalString(0) + "");
    ReadsDecimal(NoSign, 10, "", "10");
    ReadsDecimal(NoSign, 320, "", "320");
    ReadsDecimal(NoSign, 0, "", "0");
  }

  /** A frame rate of 0 is rejected, and the error text says so. */
  lemma ZeroFramerateRejected(r: Readings, qualityGiven: bool)
    requires r.framerate == IsValidNumber("0")
    ensures !Passes(Framerate, r, qualityGiven)
    ensures Contains(ErrorTextOf(FailedChecks(r, qualityGiven)), Bullet + Message(Framerate))
  {
    DefaultReadings();
    ErrorListsEachFailure(r, qualityGiven, Framerate);
  }

  /** A quality of 32 is outside 1-31 and rejected; 15 is accepted. */
  lemma QualityRange(r: Readings)
    ensures r.quality == IsValidNumber("32") ==> !Passes(Quality, r, true)
    ensures r.quality == IsValidNumber("15") ==> Passes(Quality, r, true)
  {
    assert "32" == SignText(NoSign) + (DecimalString(32) + "");
    assert "15" == SignText(NoSign) + (DecimalString(15) + "");
    ReadsDecimal(NoSign, 32, "", "32");
    ReadsDecimal(NoSign, 15, "", "15");
  }

  /**
   * Trailing text after the digits is ignored by `std::stoi`: a frame
   * rate "10abc" passes the check and goes into the command as typed.
   */
  lemma TrailingTextAccepted(r: Readings, qualityGiven: bool)
    requires r.framerate == IsValidNumber("10abc")
    ensures Passes(Framerate, r, qualityGiven)
  {
    TenWithTrailingText();
  }

  lemma TenWithTrailingText()
    ensures IsValidNumber("10abc") == Some(10)
  {
    ReadsDecimal(NoSign, 10, "abc", "10abc");
  }
}
