# gcode-trimmer: the `trim` command, modelled in Dafny

The `trim` command takes a G-code file sliced by Cura and produces a copy that
starts printing at a chosen layer. It is used to resume a failed print.

The command makes two line-by-line passes over the file:

- **Analysis** (`analyzeFile`). The command scans the lines in order and derives three values:
  - the layer count, from the first `;LAYER_COUNT:<digits>` marker;
  - the first layer's height, from the first line matching `G0.*Z(\d+\.\d+)`;
  - the layer height, which is the next matching line's height minus the first, rounded to two decimals.

  The scan stops at the line that fixes the layer height. The analysis fails
  with "Gcode file is invalid." if any of the three values is still unset.
- **Rewrite** (`generateNewGcode`). This pass is a two-state machine: a flag
  says whether lines are being written. The flag starts on. A `;LAYER:0` line
  switches it off and a `;LAYER:<start layer>` line switches it back on. On
  every line:
  - each `;LAYER_COUNT:<digits>` token becomes the number of remaining layers;
  - on a written layer-marker line, every digit run becomes the next number of a counter that starts at 0;
  - on a written line with a `Z<d>.<d>` token, every such token becomes a running height, which then rises by one layer height.

Between the passes, the user picks the start layer. The validator accepts
exactly 0 up to the layer count. The user may also override the two heights.
The output file's name replaces every `.gcode` in the input path with
`_EDITED.gcode`. A path without a lower-case `.gcode` (`part.GCODE`,
`print.gco`) is its own output path. The rewrite opens the output for writing,
which truncates it, before it reads the first line. So for such a path the rewrite reads an
empty file: it writes nothing, destroys the input and still succeeds. The model
keeps this behaviour.

The model has these modules:

- `Patterns` (patterns.dfy). The regular expressions the command uses, written as explicit matchers:
  - `FirstMatch` is `preg_match`;
  - `ReplaceAll` is `preg_replace` and `str_replace`;
  - `G0ZCapture` is the greedy `G0.*Z(\d+\.\d+)`, where `.` does not cross a newline.
- `Decimal` (decimal.dfy). Decimal digits, the rendering of integers, and `number_format(x, 2)`, modelled as exact rounding to hundredths.
- `Gate` (gate.dfy). Stream facts that do not depend on G-code:
  - a flag that lines clear and set;
  - counting marked lines;
  - keeping the marked items in order.
- `Analyzer` (analyzer.dfy).
  - `AnalyzeStep` is one line of the analysis loop.
  - `Scan` is the loop, including its `break`.
  - `ExpectedAnalysis` states the result without the loop.
- `Rewriter` (rewriter.dfy).
  - `RewriteLine` is one line of the rewrite loop.
  - `ReferenceOutput`, `EmittedMarkers` and `HeightAt` state, without the loop, which lines are written, how they are numbered and which heights they get.
  - `Trace` is the sequence of loop states those definitions predict.
- `Wrappers` (wrappers.dfy). `Option`, `Result` and `Outcome`.
- `RestartPrint` (command.dfy). The class `RestartPrintCommand`:
  - its fields as in the source;
  - `AnalyzeFile` and `GenerateNewGcode` as loops that update those fields;
  - `AskUser`;
  - the output-path function and the start-layer validator.

The model abstracts the environment as follows:

- **Files.** An input file is `Option<seq<string>>`, its lines with their line ends. `None` means it cannot be opened.
- **Output file.** Whether the output file can be created is a boolean parameter.
- **Result.** The rewrite returns the lines it writes.
- **Heights.** Heights are exact `real`s.
- **Rendering.** The text PHP prints for a height is a parameter `render: real -> string`.

## Model

| member | source | states |
|---|---|---|
| Patterns.DigitsEndIsMaximalRun | src/RestartPrintCommand.php:159 | `\d+` takes the longest run of digits: everything up to its end is a digit and the next character is not |
| Patterns.FirstFromIsLeftmost | src/RestartPrintCommand.php:145 | the position the scan reports is the leftmost match: no match starts before it |
| Patterns.MatchesIff | src/RestartPrintCommand.php:152-158 | `preg_match` succeeds exactly when the pattern matches at some position of the line |
| Patterns.ReplaceSkip | src/RestartPrintCommand.php:146-150 | replacement copies unchanged every stretch of the line where no match starts |
| Patterns.ReplaceAllNoMatch | src/RestartPrintCommand.php:63 | replacement leaves a line without any match unchanged |
| Patterns.ReplaceAllFirst | src/RestartPrintCommand.php:146-150 | replacement keeps the text before the leftmost match, replaces that match and resumes right after it |
| Patterns.LastZTokenIsLast | src/RestartPrintCommand.php:185 | the greedy `.*` lands on the last Z token reachable without crossing a newline, and every such token lies at or before it |
| Patterns.FirstG0ZIsLeftmostGreedy | src/RestartPrintCommand.php:185 | the match found from g starts at the leftmost "G0" that some Z token follows and captures the last such token; no match means no "G0…Z" pair exists |
| Patterns.G0ZCaptureIsLeftmostGreedy | src/RestartPrintCommand.php:185-189 | the same for a whole line: the capture is the leftmost-greedy `G0.*Z(\d+\.\d+)` match, and it is None exactly when the line has no such match |
| Patterns.G0ZCapture | src/RestartPrintCommand.php:185 | the capture of `G0.*Z(\d+\.\d+)` in a line; it has no contract of its own, and G0ZCaptureIsLeftmostGreedy states which match it is |
| Patterns.TokenValue | src/RestartPrintCommand.php:186 | the value read from a captured `\d+\.\d+` is never negative |
| Patterns.TokenValueIsDecimal | src/RestartPrintCommand.php:186 | the captured `\d+\.\d+` reads as the decimal number it spells: its digits with the point removed, read as one integer, divided by 10 to the number of digits after the point |
| Decimal.ParseNatAppend | src/RestartPrintCommand.php:186 | two digit runs read together are the first shifted left by the length of the second, plus the second |
| Decimal.DecimalReading | src/RestartPrintCommand.php:186 | an integer part plus a fraction part over 10^n equals both parts read together as one integer over 10^n |
| Decimal.NatToString | src/RestartPrintCommand.php:159 | the counter is printed as a non-empty run of digits, with no leading zero except for 0 itself |
| Decimal.ParseNatToString | src/RestartPrintCommand.php:159 | reading back the printed digits gives the number again |
| Decimal.IntToString | src/RestartPrintCommand.php:148 | a remaining-layer count is printed as its digits, with a '-' in front when it is negative, and reads back as the same number; the digits have no leading zero, except for 0 itself |
| Decimal.Round2 | src/RestartPrintCommand.php:186 | `number_format(x, 2)` gives a whole number of hundredths within half a hundredth of x, halves rounded away from zero |
| Gate.FlagIff | src/RestartPrintCommand.php:142-157 | a flag that starts on, is cleared and then set line by line, is on after line i exactly when every clear up to i is followed by a set up to i |
| Gate.CountTrueUnchanged | src/RestartPrintCommand.php:158-161 | unmarked lines leave the count of marked lines where it was |
| Gate.CountTrueNext | src/RestartPrintCommand.php:158-161 | between two consecutive marked lines the count rises by exactly one |
| Gate.CountTrueAll | src/RestartPrintCommand.php:166-168 | when every line is marked, the count equals the number of lines |
| Gate.KeptInOrder | src/RestartPrintCommand.php:166-168 | a kept item appears in the output at the position given by the number of kept items before it |
| Analyzer.AnalyzeStep | src/RestartPrintCommand.php:182-190 | a count or first height that is already set never changes, and one line never sets both heights, because the difference needs a first height from an earlier line |
| Analyzer.ZLineFrom | src/RestartPrintCommand.php:185-188 | the first line from k on that `G0.*Z(\d+\.\d+)` matches, with no such line before it |
| Analyzer.CountLineFrom | src/RestartPrintCommand.php:182 | the first line from k on that `;LAYER_COUNT:(\d+)` matches, with no such line before it |
| Analyzer.SecondZLine | src/RestartPrintCommand.php:185-193 | the line that fixes the layer height comes strictly after the first G0-Z line |
| Analyzer.StepBeforeSecondZLine | src/RestartPrintCommand.php:180-193 | each loop turn before the second G0-Z line keeps the state "count of the first marker seen so far, height of the first G0-Z line seen so far"; at the second G0-Z line it reaches the final result |
| Analyzer.EndWithoutSecondZLine | src/RestartPrintCommand.php:180-194 | a file with fewer than two G0-Z lines is read to the end, and the result is still the expected one |
| Analyzer.ScanFromMatchesExpected | src/RestartPrintCommand.php:180-194 | from any line up to the second G0-Z line, the rest of the loop yields the expected analysis |
| Analyzer.Scan | src/RestartPrintCommand.php:180-194 | the analysis loop with its `break`; it has no contract of its own, and ScanFromMatchesExpected and AnalysisMatchesExpected state its result |
| Analyzer.AnalysisMatchesExpected | src/RestartPrintCommand.php:180-194 | starting with all fields unset, the loop with its `break` computes the expected analysis: first count marker up to the second G0-Z line, first G0-Z height, and the difference of the first two rounded to two decimals |
| Analyzer.AnalysisFailsExactly | src/RestartPrintCommand.php:191-199 | the analysis fails exactly when there are fewer than two G0-Z lines, or when the first count marker comes after the second G0-Z line |
| Analyzer.LayerCountIsFirstMarker | src/RestartPrintCommand.php:182-184 | on success the layer count is the number in the first count marker; later markers never change it |
| Patterns.CountValue | src/RestartPrintCommand.php:182-183 | the number captured by `;LAYER_COUNT:(\d+)` in a line; it has no contract of its own, and LayerCountIsFirstMarker states which marker it reads |
| Analyzer.LayerHeightFromFirstTwoZLines | src/RestartPrintCommand.php:185-190 | the first height is the Z of the first G0-Z line, and the layer height is the Z of the next, distinct G0-Z line minus it, rounded to two decimals |
| Rewriter.CountMarkerStatesRemainingLayers | src/RestartPrintCommand.php:145-151 | the new count marker is `;LAYER_COUNT:` followed by the digits of layerCount − startLayer; its first digit is 0 only when no layer remains, and then the marker is `;LAYER_COUNT:0` |
| Rewriter.HeightAtIsProgression | src/RestartPrintCommand.php:162-165 | the k-th written height is firstHeight + k · layerHeight |
| Rewriter.ClimbIsHeightAt | src/RestartPrintCommand.php:164 | adding one layer height per marked line gives the height indexed by the number of marked lines |
| Rewriter.OutputIsWrittenLines | src/RestartPrintCommand.php:142-168 | the output is an order-preserving subsequence of the transformed lines: it has one line per written source line, and written line i appears as its transformed text after the lines written before it |
| Rewriter.EmittedAtIff | src/RestartPrintCommand.php:142-157 | line i is written exactly when every `;LAYER:0` line up to i is followed, at or after it and up to i, by a `;LAYER:<start layer>` line |
| Rewriter.LoopStep | src/RestartPrintCommand.php:144-168 | the declarative definitions take one line at a time exactly as the loop body does: flag, counter, running height and output |
| Rewriter.StepIsExpected | src/RestartPrintCommand.php:144-168 | one loop turn takes the predicted state before line k to the predicted state before line k + 1 |
| Rewriter.RewriteLine | src/RestartPrintCommand.php:144-168 | one turn of the rewrite loop; it has no contract of its own, and LoopStep, StepIsExpected and TraceStep state what it does to the predicted state |
| Rewriter.TraceStep | src/RestartPrintCommand.php:144-168 | consecutive entries of the predicted trace are related by one loop turn |
| Rewriter.TraceEnds | src/RestartPrintCommand.php:142-169 | the trace starts from flag on, counter 0 and the first height with nothing written. It ends with the counter equal to the number of written marker lines, the running height at the height after the last written Z line, and the reference output |
| Rewriter.HeaderIsWritten | src/RestartPrintCommand.php:142-154 | lines before the first `;LAYER:0` are written |
| Rewriter.SkippedAfterLayerZero | src/RestartPrintCommand.php:152-157 | from a `;LAYER:0` line that is not a start line, nothing is written until a start line |
| Rewriter.ResumedAtStartLine | src/RestartPrintCommand.php:155-168 | a start line and the lines after it are written, up to the next `;LAYER:0` line |
| Rewriter.StartLayerZeroEmitsAll | src/RestartPrintCommand.php:152-157 | with start layer 0 every line, the `;LAYER:0` line included, is written |
| Rewriter.StartLayerZeroKeepsEveryLine | src/RestartPrintCommand.php:152-168 | with start layer 0 the output has as many lines as the input |
| Rewriter.MarkersUnchanged | src/RestartPrintCommand.php:158-161 | lines that are not written marker lines, skipped marker lines included, consume no number |
| Rewriter.FirstMarkerNumberedZero | src/RestartPrintCommand.php:143-161 | the first written marker line gets the number 0 in every digit run |
| Rewriter.NextMarkerNumberedNext | src/RestartPrintCommand.php:158-161 | each later written marker line gets one more than the previous one |
| Rewriter.ZLinesUnchanged | src/RestartPrintCommand.php:162-165 | lines that are not written Z lines, skipped Z lines included, do not raise the height |
| Rewriter.FirstZLineAtFirstHeight | src/RestartPrintCommand.php:162-165 | the first written Z line gets the first height |
| Rewriter.HeightAtNextMark | src/RestartPrintCommand.php:162-165 | between two consecutive marked lines the height rises by exactly one layer |
| Rewriter.NextZLineOneLayerUp | src/RestartPrintCommand.php:162-165 | each later written Z line is exactly one layer height above the previous one |
| Rewriter.ZLineHeight | src/RestartPrintCommand.php:162-165 | in the k-th written Z line (after renumbering), the text before the first Z token is kept, that token becomes "Z" and the rendered k-th height, which is firstHeight + k · layerHeight by HeightAtIsProgression, and the scan resumes right after it, so every later token gets the same text |
| RestartPrint.OutputPathWithoutSuffix | src/RestartPrintCommand.php:63 | a path without `.gcode` is its own output path, so the output would overwrite the input |
| RestartPrint.OutputPath | src/RestartPrintCommand.php:63 | the output file name, `str_replace` of every `.gcode` by `_EDITED.gcode`; it has no contract of its own, and OutputPathWithoutSuffix and OutputPathOfGcodeFile state its two cases |
| RestartPrint.OutputPathOfGcodeFile | src/RestartPrintCommand.php:63 | `<base>.gcode`, where base has no `.gcode`, becomes `<base>_EDITED.gcode` |
| RestartPrint.NoMatchInsideBase | src/RestartPrintCommand.php:63 | appending `.gcode` to a name creates no match that starts inside the name |
| RestartPrint.ValidateStartLayer | src/RestartPrintCommand.php:206-211 | accepts exactly 0 ≤ answer ≤ layer count and returns the answer; otherwise fails with the out-of-range error |
| RestartPrint.RestartPrintCommand.constructor | src/RestartPrintCommand.php:62-63 | the command holds the input path and the derived output path, with the analysed fields unset |
| RestartPrint.RestartPrintCommand.AnalyzeFile | src/RestartPrintCommand.php:173-200 | an unreadable file fails with "Cannot open file '…'." and changes nothing. Otherwise the fields become the loop's result, which from unset fields is the expected analysis, and the call passes exactly when all three fields are set, else fails with "Gcode file is invalid." |
| RestartPrint.Message | src/RestartPrintCommand.php:133-208 | the text of each failure: "Cannot open file '…'." (lines 133 and 177), "Cannot open file ….", "Gcode file is invalid." and "Starting layer should be between 0 and …"; it has no contract of its own, and the AnalyzeFile, AskUser and GenerateNewGcode rows state which failure each call reports |
| RestartPrint.RestartPrintCommand.AnalyzeLine | src/RestartPrintCommand.php:181-190 | one loop turn updates the three fields as `AnalyzeStep` says |
| RestartPrint.RestartPrintCommand.AskUser | src/RestartPrintCommand.php:202-246 | an out-of-range start layer is refused with "Starting layer should be between 0 and <count>" and nothing changes. Otherwise the start layer is the answer, and each height is the answer or, when none is given, the analysed default |
| RestartPrint.RestartPrintCommand.GenerateNewGcode | src/RestartPrintCommand.php:127-171 | the read-open failure ("Cannot open file '<input>'.") and the write-open failure ("Cannot open file <output>.") change nothing. When the output path is the input path, the truncated input yields success with no lines and fileStartHeight unchanged. Otherwise the written lines are the reference output, and fileStartHeight ends at the height after the last written Z line |
| RestartPrint.RestartPrintCommand.RewriteLines | src/RestartPrintCommand.php:142-169 | the loop writes exactly the reference output and leaves fileStartHeight one layer higher per written Z line |
| RestartPrint.RestartPrintCommand.RewriteLineAt | src/RestartPrintCommand.php:144-168 | one loop turn takes the loop variables and fileStartHeight from trace entry i to entry i + 1 |

## Left out

- Console plumbing is not modelled:
  - the title, notes, comments and listing;
  - the `confirm` in `validateChoices`;
  - the progress bar calls;
  - the exit codes 0, 1 and 2 of `trimGcode`.
  The model has each pass return its outcome instead.
- File handles are not modelled: `fopen`, `fgets`, `fwrite` and `fclose`.
  - A file is given as its lines.
  - The output is returned as the sequence of written lines.
  - `generateNewGcode` never closes its handles; the model does not represent handles at all.
- Floating-point behaviour is not modelled: heights are exact reals.
  - The accumulated rounding error of `+=` at line 164 is not modelled.
  - `floatval` is read as the exact decimal value of the captured digits.
  - `number_format(x, 2)` is modelled as rounding to hundredths, without the thousands separator it inserts from 1000 on.
  - The string `"Z{$h}"` uses an abstract `render` parameter in place of PHP's float-to-string conversion.
- RestartPrint.RestartPrintCommand.AskUser:
  - it takes the start-layer answer as an integer, so `intval` on the typed text is not modelled;
  - a refused answer ends the call instead of asking again, as the console's question helper does.
- The two height validators are not modelled, because `is_float(floatval(x))` is always true and they never reject an answer.
- The layer count is a natural number. The source stores the captured digit string and converts it implicitly when it subtracts the start layer. In the model, a count written with leading zeros therefore appears without them in the start-layer message. The source puts the captured digit string into the message as written (line 208), so `;LAYER_COUNT:010` gives "between 0 and 010".
- RestartPrint.RestartPrintCommand.GenerateNewGcode: input and output are taken to be the same file exactly when their path strings are equal. Two different paths naming one file (a link, `./a.gcode` against `a.gcode`) are not modelled.
- Layer numbers, the layer count and the counter of `generateNewGcode` are unbounded integers. PHP integers are 64 bits wide. A `;LAYER_COUNT:` value above PHP_INT_MAX (9223372036854775807) is read as a float, so line 148 writes something like `;LAYER_COUNT:1.0E+20`. `intval` saturates at PHP_INT_MAX, and line 207 then compares an int with a float. None of this is modelled.
- The start layer starts at 0 in the constructor. The source leaves it unset until `askUser`, and `generateNewGcode` is only reached after it.
- gcode-edit.php, the console application's bootstrap, is not part of this model.
