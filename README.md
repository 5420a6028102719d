# GifCmdGenerator, modelled in Dafny

GifCmdGenerator turns a directory of numbered images into an animated GIF
with ffmpeg. This project models three of its programs and proves properties
of the models.

- **The terminal GIF tool** (`src/main.cpp`) keeps the input fields, the
  messages, the progress value and the `fileMap` in globals. Here they are the
  fields of one `GifTool.App` object. The tool has three routines:
  - `RenameFiles` collects the numbered files with the chosen extension, sorts
    them by number and renames them to `image_001.<ext>`, `image_002.<ext>`
    and so on.
  - `GenerateCommand` checks the frame rate, the width, the optional quality
    and the loop count, then shows either a bulleted error message or the
    ffmpeg command line.
  - `ExecuteCommand` reads ffmpeg's output chunk by chunk. It takes the frame
    number from `frame=\s*(\d+)` and smooths the progress bar towards
    `frame / fileMap.size()` in steps of 0.01. It collects the chunks that
    mention "Error" or "failed", and ends with a success or failure message.
- **The stand-alone renamer** (`src/rename.cpp`) does the same collect, sort
  and rename on ".jpg" files. It uses a 5-digit counter and prints
  `Renamed: old -> new` for each file.
- **The scanner** (`src/newregex.cpp`) reports the regular files whose whole
  name matches `A\d{3}\.jpg`.

Modules:

| module | file | what it holds |
|---|---|---|
| `Text` | text.dfy | digits, decimal text, `setw`/`setfill('0')` padding, `find` |
| `DigitRun` | digit_run.dfy | `extractNumberFromFilename`: its backward loop, and its specification (the last run of digits) |
| `Stoi` | stoi.dfy | `std::stoi` and `isValidNumber` |
| `Directory` | directory.dfy | directory entries and `path::extension()` |
| `RenamePlan` | rename_plan.dfy | the map of numbered files, sorting by number, the rename plan |
| `Command` | command.dfy | what `GenerateCommand` must produce: the failed checks, the error text, the command line |
| `Progress` | progress.dfy | what `ExecuteCommand` makes of each output chunk |
| `GifTool` | gif_tool.dfy | the `App` object and its three routines, as methods that change its fields |
| `RenameTool` | rename_tool.dfy | the stand-alone renamer's `main` |
| `NewRegex` | new_regex.dfy | the whole-name pattern match and the scan |

Parameters stand in for everything the programs get from outside:

- The directory listing is a sequence of `Entry(name, isRegular)`, in
  iteration order.
- ffmpeg's output is a sequence of chunks, as `fgets` returns them.
- Whether the log file opened is a boolean parameter, and so is whether
  `popen` started the process.
- Each `fs::rename` becomes one `Rename(from, to)` of a returned plan. The
  lines printed are returned as a sequence.

## Model

| member | source | states |
|---|---|---|
| Text.ZeroPad | src/main.cpp:110 | the padded counter is all digits and at least `width` long |
| Text.ZeroPadRoundTrip | src/rename.cpp:70 | reading a zero-padded counter back as a number gives the counter |
| Text.ZeroPadInjective | src/main.cpp:110 | two different counters are never padded to the same text |
| Text.ZeroPadWidth | src/rename.cpp:70 | the padded text is exactly `width` long iff the counter is below 10^width |
| Text.DecimalLength | src/rename.cpp:70 | a number takes at most k digits iff it is below 10^k |
| Text.DecimalRoundTrip | src/main.cpp:46 | the decimal text of n has value n |
| Text.ZerosIgnored | src/main.cpp:103 | leading zeros do not change a digit string's value |
| DigitRun.TrailingDigits | src/main.cpp:62-74 | the result is the longest all-digit suffix: a suffix, all digits, and preceded by a non-digit when shorter than the input |
| DigitRun.LastDigitRunShape | src/rename.cpp:12-35 | the run is a maximal block of digits in the name, with no digit after it; it is empty iff the name has no digit |
| DigitRun.ExtractNumberFromFilename | src/main.cpp:56-79 | the backward loop returns the last maximal run of digits, in original order; it returns empty iff the name has no digit |
| DigitRun.ReverseInPlace | src/main.cpp:77 | `std::reverse` leaves the buffer holding the reverse of its old contents |
| DigitRun.DigitStep | src/main.cpp:64-67 | pushing a digit keeps the loop invariant (the collected digits, reversed, complete the run) |
| DigitRun.SkipStep | src/main.cpp:62-74 | skipping a non-digit before any digit keeps the loop invariant |
| DigitRun.LoopExit | src/main.cpp:69-73 | when the loop ends or breaks, the reversed collected digits are the run |
| DigitRun.SkipsDigitFreeSuffix | src/main.cpp:62-74 | text without digits after the stem (such as ".jpg") does not change the run |
| DigitRun.TrailingRunAfterNonDigit | src/main.cpp:62-74 | a digit block that follows a non-digit at the end of a name is the run |
| DigitRun.DigitInExtension | src/main.cpp:88-91 | "clip.mp4" yields "4": a digit in the extension is picked up |
| DigitRun.LeadingZerosKept | src/main.cpp:91-95 | "img007.jpg" yields the key "007", leading zeros included |
| Stoi.SkipSpaces | src/main.cpp:46 | the result is a suffix of the input that does not start with white space |
| Stoi.LeadingDigits | src/main.cpp:46 | the result is the longest all-digit prefix |
| Stoi.IsValidNumber | src/main.cpp:42-53 | every value returned fits in a 32-bit `int` |
| Stoi.ReadsSignedDigits | src/main.cpp:42-53 | spaces, an optional sign, digits and non-digit text read as the signed value when it fits in `int`, and fail otherwise |
| Stoi.SpacesIgnored | src/main.cpp:46 | leading white space does not change the result |
| Stoi.ReadsDecimal | src/main.cpp:42-53 | the decimal text of a number, after an optional sign and before non-digit text, reads back as the signed number when it fits in `int` (so every `int` reads back from its own text) |
| Stoi.RejectsNonDigitStart | src/main.cpp:42-53 | white space, at most one sign, then text that does not start with a digit is rejected, whatever digits come later |
| Stoi.Split | src/main.cpp:42-53 | every text splits into white space, an optional sign, a digit run and a rest that does not start with a digit; with neither sign nor digit, the rest does not start with white space or a sign, so this is the split `std::stoi` reads; the text is accepted iff that digit run is not empty and its signed value fits in `int` |
| Stoi.LettersFirstRejected | src/main.cpp:42-53 | "abc10" and " x7" are rejected |
| Stoi.SpaceAfterSignRejected | src/main.cpp:42-53 | "- 5" is rejected |
| Stoi.TwoSignsRejected | src/main.cpp:42-53 | "+-5" is rejected |
| Stoi.NoDigitNoNumber | src/main.cpp:49-52 | a text without digits is rejected |
| Directory.LastDot | src/main.cpp:88 | the index is of a '.', and no '.' follows it |
| Directory.Extension | src/main.cpp:88 | a non-empty extension starts with '.', is a proper suffix of the name and has no other '.'; it is empty iff the name is "." or ".." or has no '.' after its first character |
| Directory.NoExtension | src/main.cpp:88 | ".", ".." and the hidden file ".jpg" have no extension |
| Directory.ExtensionOf | src/rename.cpp:47 | a non-empty stem followed by a one-dot extension has that extension |
| RenamePlan.Qualifies | src/main.cpp:88-93 | defines which files are collected: regular, with the chosen extension, and with a digit in the name |
| RenamePlan.Collect | src/main.cpp:86-98 | defines the map after the directory loop: each qualifying file, in listing order, is stored under its last digit run, overwriting an earlier file with the same key |
| RenamePlan.CollectHasKey | src/main.cpp:86-98 | after the loop, every qualifying file's digit string is a key of the map |
| RenamePlan.CollectNumbers | src/main.cpp:93-96 | every key that enters the map is a non-empty digit string |
| RenamePlan.CollectLastWins | src/main.cpp:95 | for a key that no later qualifying file shares, the file is the key's value (last write wins) |
| RenamePlan.CollectKeeps | src/main.cpp:32 | a key that no qualifying file has keeps its earlier entry or stays absent, so entries accumulate across calls |
| RenamePlan.CollectFrom | src/main.cpp:86-98 | every entry was already in the map, or comes from a qualifying file of the listing under that file's digit string |
| RenamePlan.CollectNumbered | src/main.cpp:86-98 | the directory loop computes the map that `Collect` specifies |
| RenamePlan.EntriesOf | src/main.cpp:101 | the vector holds each entry of the map exactly once |
| RenamePlan.Swap | src/main.cpp:102-103 | exchanges two cells, changes no other cell, and keeps the multiset |
| RenamePlan.SortByNumber | src/main.cpp:102-103 | the result is sorted by `stoi` of the key and is a permutation of the input |
| RenamePlan.SortedEntries | src/main.cpp:101-103 | the result lists the map's entries exactly once, sorted by number |
| RenamePlan.KeysDistinct | src/main.cpp:101 | no key occurs twice in the vector |
| RenamePlan.SortedIsStrict | src/main.cpp:102-103 | when no two keys have the same value, the sorted vector is strictly increasing |
| RenamePlan.StrictlySortedUnique | src/main.cpp:102-103 | two strictly sorted permutations of each other are equal |
| RenamePlan.SortedListingUnique | src/main.cpp:101-103 | when no two keys have the same value, the sorted vector is fully determined by the map |
| RenamePlan.EqualValuesEitherOrder | src/main.cpp:102-103 | "007" and "7" compare equal, so both orders of them are sorted and the comparator does not decide which file is renamed first |
| RenamePlan.PlanFor | src/main.cpp:106-115 | one rename per sorted entry |
| RenamePlan.TargetName | src/main.cpp:110 | defines the new name: "image_", the counter zero-padded to the width, then the suffix (here `.` + extension; ".jpg" in src/rename.cpp:70) |
| RenamePlan.TargetNameInjective | src/main.cpp:110 | different counters give different new names |
| RenamePlan.PlanTargetsDistinct | src/main.cpp:106-115 | the k-th rename moves the k-th entry's file, and no two renames share a new name |
| RenamePlan.OneRenamePerEntry | src/main.cpp:106-115 | there is one rename per map entry: each rename moves the file of its entry, and every entry is moved |
| RenamePlan.PlanRenames | src/main.cpp:106-115 | the counter loop, starting at 1, produces `PlanFor` of the sorted vector |
| RenamePlan.NumberedJpg | src/rename.cpp:47-54 | a stem ending in a non-digit, then digits, then ".jpg" has extension ".jpg" and key equal to the digits |
| RenamePlan.QualifiesNumberedJpg | src/rename.cpp:47-54 | such a regular file qualifies and keys under its digits |
| RenamePlan.CollectThree | src/main.cpp:86-98 | three qualifying files with different keys give the map of those three entries |
| RenamePlan.ExampleCollect | src/main.cpp:86-98 | a5.jpg, a12.jpg, a1.jpg collect under the keys "5", "12", "1" |
| RenamePlan.ComparatorReadsKey | src/main.cpp:102-103 | on a key of the map (a digit string), `std::stoi` gives the key's number when it fits in `int` and throws otherwise |
| RenamePlan.StaleEntryKept | src/main.cpp:86-98 | collecting into a map that already holds a key keeps that key and its file next to the new entry |
| RenamePlan.SecondRenameKeepsMovedFile | src/main.cpp:86-98 | after a1.jpg became image_001.jpg, the next collection holds both "1" for a1.jpg and "001" for image_001.jpg, with the same number |
| RenamePlan.ExampleSorted | src/main.cpp:101-103 | the only sorted vector of that map is 1, 5, 12: numeric order, not text order |
| RenamePlan.NumericOrderExample | src/main.cpp:101-115 | a1.jpg becomes image_001.jpg, a5.jpg image_002.jpg and a12.jpg image_003.jpg |
| RenamePlan.ExampleTargets | src/main.cpp:110 | counters 1, 2, 3 give image_001.jpg, image_002.jpg, image_003.jpg |
| Command.FailedChecks | src/main.cpp:125-154 | at most four checks fail |
| Command.FailedChecksMembers | src/main.cpp:125-154 | a check is listed iff it fails, and the list is in run order without repeats |
| Command.RunStep | src/main.cpp:129-154 | running one more check keeps the order and adds the check iff it fails |
| Command.Messages | src/main.cpp:131-153 | one message per failed check, in the same order |
| Command.MessagesConcat | src/main.cpp:125-154 | the messages of two runs of checks, one after the other, are the messages of each in turn, so each `push_back` appends in failure order |
| Command.Bulleted | src/main.cpp:160-163 | defines the list: each message in turn, after the bullet "\n  • " |
| Command.ErrorText | src/main.cpp:156-164 | defines the error message: empty when no check fails, otherwise "错误：" followed by the bulleted messages of the failed checks in order |
| Command.CommandLine | src/main.cpp:170-181 | defines the ffmpeg command: frame rate, input pattern `image_%03d.<ext>`, scale filter, ` -q:v <quality>` only for a non-empty quality, loop count, ` -y` and the output path |
| Command.NoErrorIffValid | src/main.cpp:157-164 | the error text is empty iff every check passes |
| Command.CommandOnlyWhenValid | src/main.cpp:166-182 | a command is shown iff every check passes |
| Command.BulletedLists | src/main.cpp:160-163 | each message appears in the text after its own bullet |
| Command.ErrorListsEachFailure | src/main.cpp:156-164 | the message of every failed check appears, after its bullet, in the error text |
| Command.QualityFlagPresent | src/main.cpp:175-178 | a non-empty quality appears in the command as ` -q:v <quality>` |
| Command.CommandEndsWithOutput | src/main.cpp:181 | the command ends with ` -y <output path>` |
| Command.DefaultsValid | src/main.cpp:19-24 | the initial fields pass every check and give no error text |
| Command.DefaultReadings | src/main.cpp:20-23 | "10", "320" and "0" read as 10, 320 and 0 |
| Command.ZeroFramerateRejected | src/main.cpp:129-132 | a frame rate of "0" fails, and its message is in the error text |
| Command.QualityRange | src/main.cpp:141-147 | a quality of 32 is rejected and 15 accepted |
| Command.TrailingTextAccepted | src/main.cpp:129 | a frame rate of "10abc" passes the check |
| Command.TenWithTrailingText | src/main.cpp:46 | "10abc" reads as 10 |
| Progress.MarkerFromFound | src/main.cpp:232-235 | when the search from i returns a frame, it is the value of the leftmost marker at or after i |
| Progress.MarkerFromNone | src/main.cpp:232 | the search from i returns nothing iff there is no marker at or after i |
| Progress.FrameMarkerLeftmost | src/main.cpp:221-235 | the frame read from a chunk is the value of its leftmost `frame=\s*\d+` match, and nothing is read iff there is no match |
| Progress.StatusLineFrame | src/main.cpp:232-235 | "frame=   12 fps=0" gives frame 12 |
| Progress.StatusLineMarker | src/main.cpp:221 | that chunk has a marker at 0 whose value is 12 |
| Progress.StatusLineRest | src/main.cpp:221 | after "frame=", the spaces are skipped and "12" is read |
| Progress.TwelveValue | src/main.cpp:234 | "12" has value 12 |
| Progress.FrameMarker | src/main.cpp:221-235 | defines the frame read from a chunk: the value of the first `frame=`, optional white space, digits, or nothing |
| Progress.TargetOf | src/main.cpp:238 | the target is finite iff there are frames, and lies in [0, 1] when the frame is within the total; it is NaN iff 0/0 |
| Progress.Smooth | src/main.cpp:239-252 | smoothing never lowers the progress; towards a finite target it either leaves it unchanged (already there) or sets it exactly to the target; NaN changes nothing |
| Progress.Step | src/main.cpp:226-259 | defines one chunk: the frame becomes the chunk's marker value (or stays); an infinite target marks the run stuck with the progress from before the chunk (the source keeps climbing there, see "## Left out"); otherwise the progress is smoothed and an error chunk is appended |
| Progress.StepKeeps | src/main.cpp:226-259 | one chunk never lowers the progress and at most appends itself, as an error line, to the collected text; once stuck, nothing changes |
| Progress.ScanLines | src/main.cpp:226-259 | defines the state after the chunks: `Step` applied to each chunk in order, from frame 0, progress 0, no errors |
| Progress.ResultMessage | src/main.cpp:267-274 | the final message is the success message iff no error text was collected (otherwise the failure header followed by that text) |
| Progress.ErrorLines | src/main.cpp:255-258 | every collected chunk contains "Error" or "failed" |
| Progress.ProgressMonotone | src/main.cpp:226-252 | the progress never decreases from one chunk to the next and is never negative |
| Progress.ProgressNonNegative | src/main.cpp:198 | the progress after the run is at least 0 |
| Progress.StuckStays | src/main.cpp:239-252 | once the smoothing loop cannot end, later chunks change nothing |
| Progress.ProgressIsLargestFrame | src/main.cpp:226-252 | with frames, the run never hangs; the progress is the largest reported frame over the total (0 when none), and the final frame is one that some chunk reported |
| Progress.ProgressAtMostOne | src/main.cpp:238 | when no chunk reports more frames than the total, the progress stays within [0, 1] |
| Progress.ProgressNotClamped | src/main.cpp:238 | a reported frame above the total pushes the progress above 1 |
| Progress.NoFramesStuck | src/main.cpp:191 | with an empty `fileMap`, the run hangs iff some chunk reports a frame above 0; otherwise the progress stays 0 |
| Progress.ErrorsAreErrorLines | src/main.cpp:255-258 | the collected text is the error chunks, in order, and nothing else |
| Progress.NoErrorText | src/main.cpp:255-258 | the collected text is empty iff no chunk is an error chunk |
| Progress.SuccessIffNoErrorLine | src/main.cpp:267-274 | a finished run reports success iff no chunk mentions "Error" or "failed" |
| GifTool.App.constructor | src/main.cpp:19-32 | the globals start with their initial values, and `fileMap` starts empty |
| GifTool.App.RenameFiles | src/main.cpp:82-116 | `fileMap` grows by the listing's numbered files; the returned vector lists it sorted by number; the plan renames the k-th entry to `image_` + 3-digit k + `.` + extension |
| GifTool.App.GenerateCommand | src/main.cpp:119-183 | sets the error message and the displayed command to what the current fields call for, and changes nothing else |
| GifTool.App.ExecuteCommand | src/main.cpp:186-278 | does nothing when there is an error message. A failure to open the log or start ffmpeg ends the run with its message. Otherwise the progress and result follow the chunks; the run ends with success or failure, or hangs with `isRunning` set |
| GifTool.App.ReadOutput | src/main.cpp:226-259 | the chunk loop leaves the progress and the collected error text that the chunks specify, and reports whether the smoothing loop could not end |
| GifTool.App.SmoothTowards | src/main.cpp:239-252 | the loop of 0.01 steps ends at the value `Smooth` specifies |
| GifTool.CheckReadings | src/main.cpp:125-154 | the four checks, run in order, push exactly the messages of the failed checks |
| GifTool.CheckSizes | src/main.cpp:128-138 | the frame rate and width checks push exactly the messages of those that fail, in order |
| GifTool.CheckQualityAndLoop | src/main.cpp:140-154 | after earlier checks, the quality check (only for a given quality) and the loop count check add exactly the messages of those that fail |
| GifTool.Report | src/main.cpp:129-132 | a failing check pushes its message, and a passing one pushes nothing |
| GifTool.Generate | src/main.cpp:119-183 | the error text and command computed from a set of fields are the specified ones |
| GifTool.CheckParams | src/main.cpp:125-154 | reading the four fields and checking them gives the messages of the failed checks |
| GifTool.JoinErrors | src/main.cpp:157-164 | the header, then each message after a bullet |
| GifTool.BuildCommand | src/main.cpp:170-181 | the statements build the specified command line |
| RenameTool.LogLine | src/rename.cpp:74 | defines the printed line `Renamed: <old> -> <new>` |
| RenameTool.RunRename | src/rename.cpp:38-79 | the map's entries, sorted by number; one rename per entry to `image_` + 5-digit counter + ".jpg"; one `Renamed: old -> new` line per rename, in order |
| RenameTool.RenamesListedFiles | src/rename.cpp:45-57 | every rename moves a regular ".jpg" file of the listing whose digit string is its entry's key |
| RenameTool.EveryNumberRenamedOnce | src/rename.cpp:52-55 | every digit string found among the qualifying files gets a rename, of the file kept for it |
| RenameTool.RenamedFileQualifies | src/rename.cpp:70 | a new name is a regular ".jpg" file that qualifies again, and its digit run is the zero-padded counter |
| RenameTool.PaddedCounterValue | src/rename.cpp:70 | the zero-padded counter reads back as the counter |
| RenameTool.RenamedCollect | src/rename.cpp:45-57 | the files of an earlier run of n files collect into the map of n entries, the padded counter k for the k-th new name |
| RenameTool.PermutedRenamedCollect | src/rename.cpp:45-57 | the files of an earlier run collect into the same map whatever order the directory lists them in |
| RenameTool.SecondRunKeepsNames | src/rename.cpp:38-79 | a second run on those files, listed in any order, sorts them in counter order, and its plan renames each file to its own name |
| RenameTool.RenamedSortDoesNotThrow | src/rename.cpp:60-62 | the sort of that second run, on any order of the files, does not throw while n fits in `int` |
| RenameTool.TargetLength | src/rename.cpp:70 | new names are 15 characters long iff the counter is below 100000 |
| NewRegex.IsImageName | src/newregex.cpp:12-22 | defines the scanner's test: the whole name matches `A\d{3}\.jpg` |
| NewRegex.MatchesPositionwise | src/newregex.cpp:22 | the whole-string match is the same as matching position by position with equal lengths |
| NewRegex.ImageNameShape | src/newregex.cpp:12-22 | a name matches iff it has 8 characters: 'A', three digits, ".jpg" |
| NewRegex.WholeNameOnly | src/newregex.cpp:22 | no text can be added before or after a matching name |
| NewRegex.AcceptedNames | src/newregex.cpp:12 | 'A', any three digits and ".jpg" match |
| NewRegex.NotWholeName | src/newregex.cpp:22 | "xA123.jpg" and "A123.jpg.bak" do not match |
| NewRegex.OnlyUppercaseA | src/newregex.cpp:11-12 | "B123.jpg" and "a123.jpg" do not match |
| NewRegex.OtherRejectedNames | src/newregex.cpp:12 | "A123xjpg", "A12.jpg", "A1234.jpg" and "A123.JPG" do not match |
| NewRegex.MatchedNames | src/newregex.cpp:16-25 | at most one name per entry |
| NewRegex.MatchedNamesMembers | src/newregex.cpp:16-25 | a name is reported iff some regular file of the listing has it and it matches |
| NewRegex.MatchedNamesAppend | src/newregex.cpp:16 | matches are reported in listing order |
| NewRegex.MatchLine | src/newregex.cpp:24 | defines the printed line: `Matched file: ` and the quoted path "./<name>" |
| NewRegex.ReportMatches | src/newregex.cpp:16-27 | one `Matched file: "./<name>"` line per regular file whose name matches `A\d{3}\.jpg`, in listing order |
| NewRegex.NothingToEscape | src/newregex.cpp:24 | a matching name has no '"' or '\\', so quoting the path adds no escapes |

## Left out

- The ftxui interface: the screen, the input boxes, the buttons and their
  wiring, and `PostEvent` refreshes. The model runs each routine once, when
  it is called.
- The worker thread, the atomics and the 10 ms sleeps in the smoothing loop.
- Floating point: the progress is a `real`. The 0.01 steps and the division
  are exact, and `float` rounding is not modelled. The NaN and +infinity
  cases of `float / 0` are modelled explicitly.
- GifTool.App.ExecuteCommand: when a chunk that is read has a frame number
  that does not fit in `int`, `std::stoi` throws inside the thread and the
  program terminates. The method requires the frame number of every chunk
  read to fit; chunks after a hang are never read and may hold anything.
- GifTool.App.ExecuteCommand: when a chunk reports frames while `fileMap` is
  empty, the target is +infinity and the smoothing loop never ends. The model
  stops reading there and leaves `isRunning` true. In that hang the source
  goes on adding 0.01 to `progress` without end (until `float` rounding
  stalls it); the model's `progress`, as `GifTool.App.ReadOutput` and
  `Progress.Step` leave it, is the value from before that chunk, where the
  endless climb starts.
- The log file contents, the pipe, `pclose` and the `" 2>&1"` suffix: each is
  I/O. Whether the log opened and whether ffmpeg started are parameters.
- `fgets` splits the output into chunks of at most 63 characters. The model
  takes the chunks as given, so a `frame=` marker split across two chunks is
  read as the chunks present it.
- GifTool.App.RenameFiles: `std::sort` calls `std::stoi` on the keys, which
  throws on a key too large for `int` when the map has two or more entries.
  The method requires that this does not happen (`SortDoesNotThrow`).
- RenameTool.RunRename: the same requirement, for the same reason.
- GifTool.App.RenameFiles is not idempotent: `fileMap` is never cleared, so a
  second call keeps the keys of files the first call moved
  (`RenamePlan.SecondRenameKeepsMovedFile`) and plans to move them again;
  `fs::rename` of a missing file throws, which the model does not follow.
  Idempotence is proved only for the stand-alone renamer, which starts from
  an empty map (`RenameTool.SecondRunKeepsNames`).
- The starting order of the vector (the `std::map` order) is not modelled.
  The sort is specified by its result: the map's entries, sorted by number.
  When two keys have equal values ("007" and "7"), any order of them is
  allowed, as `std::sort` is not stable.
- The filesystem: the renames are returned as a plan, not performed. What
  `fs::rename` does when the new name already exists, or when a later rename
  moves a file an earlier one created, is not modelled.
- The counter is unbounded. The source's `int` counter would overflow only
  after 2^31 files.
- GifTool.CheckParams: the program reads the quality only when its field is
  not empty. The model reads all four fields and then checks them. The extra
  read has no effect, and an empty quality is never checked.
- The `std::regex` engine. Both patterns are written out by hand: the frame
  marker in `Progress` and the file-name pattern in `NewRegex`.
- The scanner's exception branches (`src/newregex.cpp:28-33`): the listing is
  given, so nothing can fail while reading it.
- Path quoting in the scanner's output is modelled only for the names it
  prints, which never need an escape.
