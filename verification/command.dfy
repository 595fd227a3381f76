/** The trim command itself: the object that holds the file names and the
    analysed values, the output-name rule, the start-layer validator, and the
    two passes over the file as loops that update the object's fields. The
    file system is passed in: a file that cannot be opened for reading is
    None, and whether the output file can be created is a flag. */
module RestartPrint {
  import opened Wrappers
  import opened Decimal
  import opened Patterns
  import opened Analyzer
  import opened Rewriter

  datatype Error =
    | CannotOpenForReading(path: string)
    | CannotOpenForWriting(path: string)
    | InvalidGcode
    | StartLayerOutOfRange(layerCount: nat)

  /** The message each exception carries. */
  function Message(e: Error): string {
    match e
    case CannotOpenForReading(path) => "Cannot open file '" + path + "'."
    case CannotOpenForWriting(path) => "Cannot open file " + path + "."
    case InvalidGcode => "Gcode file is invalid."
    case StartLayerOutOfRange(n) => "Starting layer should be between 0 and " + NatToString(n)
  }

  const GCODE := ".gcode"
  const EDITED_GCODE := "_EDITED.gcode"

  /** The output file name: every ".gcode" in the path becomes "_EDITED.gcode". */
  function OutputPath(path: string): string {
    ReplaceAll(Literal(GCODE), path, EDITED_GCODE)
  }

  /** A path without ".gcode" is its own output path: the source file would be overwritten. */
  lemma {:induction false} OutputPathWithoutSuffix(path: string)
    requires !Matches(Literal(GCODE), path)
    ensures OutputPath(path) == path
  {
    ReplaceAllNoMatch(Literal(GCODE), path, EDITED_GCODE);
  }

  /** For an ordinary "<base>.gcode" file, the output is "<base>_EDITED.gcode". */
  lemma {:induction false} OutputPathOfGcodeFile(base: string)
    requires !Matches(Literal(GCODE), base)
    ensures OutputPath(base + GCODE) == base + EDITED_GCODE
  {
    var p := Literal(GCODE);
    var s := base + GCODE;
    var n := |base|;
    MatchesIff(p, base);
    forall m | 0 <= m < n
      ensures !MatchAt(p, s, m)
    {
      NoMatchInsideBase(base, m);
    }
    HasAtIff(s, GCODE, n);
    assert s[n..n + |GCODE|] == GCODE;
    ReplaceSkip(p, s, EDITED_GCODE, 0, n);
    assert s[0..n] == base;
  }

  /** Appending ".gcode" creates no match that starts inside the base name. */
  lemma {:induction false} NoMatchInsideBase(base: string, m: nat)
    requires m < |base| && !MatchAt(Literal(GCODE), base, m)
    ensures !MatchAt(Literal(GCODE), base + GCODE, m)
  {
    var s := base + GCODE;
    var n := |base|;
    HasAtIff(s, GCODE, m);
    if m + |GCODE| <= n {
      HasAtIff(base, GCODE, m);
      assert s[m..m + |GCODE|] == base[m..m + |GCODE|];
    } else {
      // the suffix's '.' would sit inside the match, where ".gcode" has none
      assert s[n] == '.';
      assert GCODE[n - m] != '.';
      assert s[m..m + |GCODE|][n - m] == '.';
    }
  }

  /** The start-layer question's validator, on the answer's integer value:
      only 0 up to the layer count is accepted, and it becomes the start layer. */
  function ValidateStartLayer(answer: int, layerCount: nat): (r: Result<nat, Error>)
    ensures r.Success? <==> 0 <= answer <= layerCount
    ensures r.Success? ==> r.value == answer
    ensures r.Failure? ==> r.error == StartLayerOutOfRange(layerCount)
  {
    if 0 <= answer <= layerCount then Success(answer) else Failure(StartLayerOutOfRange(layerCount))
  }

  class RestartPrintCommand {
    var fileName: string
    var newFileName: string
    var fileLayerCount: Option<nat>
    var fileStartHeight: Option<real>
    var fileLayerHeight: Option<real>
    var startLayer: nat

    /** The three analysed fields, None while unset. */
    function State(): Analysis
      reads this
    {
      Analysis(fileLayerCount, fileStartHeight, fileLayerHeight)
    }

    /** The parameters the rewrite pass reads from the fields. */
    function Request(): TrimRequest
      reads this
      requires fileLayerCount.Some? && fileStartHeight.Some? && fileLayerHeight.Some?
    {
      TrimRequest(fileLayerCount.value, startLayer, fileStartHeight.value, fileLayerHeight.value)
    }

    /** The command started on a file: its name and the derived output name. */
    constructor(gcodeFile: string)
      ensures fileName == gcodeFile && newFileName == OutputPath(gcodeFile)
      ensures State() == Unset && startLayer == 0
    {
      fileName := gcodeFile;
      newFileName := OutputPath(gcodeFile);
      fileLayerCount, fileStartHeight, fileLayerHeight := None, None, None;
      startLayer := 0;
    }

    /** The analysis pass: reads lines until the layer height is set, then
        fails unless all three values are set. */
    method AnalyzeFile(source: Option<seq<string>>) returns (r: Outcome<Error>)
      modifies this`fileLayerCount, this`fileStartHeight, this`fileLayerHeight
      ensures source.None? ==> r == Fail(CannotOpenForReading(fileName)) && State() == old(State())
      ensures source.None? ==> Message(r.error) == "Cannot open file '" + fileName + "'."
      ensures source.Some? ==> State() == Scan(old(State()), source.value, 0)
      ensures source.Some? ==> (r == Pass <==> Complete(State()))
      ensures source.Some? && r != Pass ==> r == Fail(InvalidGcode) && Message(r.error) == "Gcode file is invalid."
      ensures source.Some? && old(State()) == Unset ==> State() == ExpectedAnalysis(source.value)
    {
      if source.None? {
        return Fail(CannotOpenForReading(fileName));
      }
      var lines := source.value;
      var i := 0;
      while i < |lines|
        invariant i <= |lines|
        invariant Scan(State(), lines, i) == Scan(old(State()), lines, 0)
      {
        AnalyzeLine(lines[i]);
        if fileLayerHeight.Some? {
          break;
        }
        i := i + 1;
      }
      if old(State()) == Unset {
        AnalysisMatchesExpected(lines);
      }
      if fileLayerCount.None? || fileLayerHeight.None? || fileStartHeight.None? {
        return Fail(InvalidGcode);
      }
      return Pass;
    }

    /** One turn of the analysis loop: the count marker sets the layer count
        while it is unset, a G0-Z line sets the layer height once the first
        height is known, and the first G0-Z line sets the first height. */
    method AnalyzeLine(line: string)
      modifies this`fileLayerCount, this`fileStartHeight, this`fileLayerHeight
      ensures State() == AnalyzeStep(old(State()), line)
    {
      if fileLayerCount.None? && Matches(CountTag, line) {
        fileLayerCount := Some(CountValue(line));
      }
      if fileStartHeight.Some? && G0ZCapture(line).Some? {
        fileLayerHeight := Some(Round2(CapturedHeight(line) - fileStartHeight.value));
      }
      if fileStartHeight.None? && G0ZCapture(line).Some? {
        fileStartHeight := Some(CapturedHeight(line));
      }
    }

    /** The three questions, given the answers: the start layer (its integer
        value), then the layer height and the first height, where None keeps
        the analysed value (the question's default). A start layer out of
        range is refused and nothing changes. */
    method AskUser(layerAnswer: int, layerHeightAnswer: Option<real>, startHeightAnswer: Option<real>)
      returns (r: Outcome<Error>)
      requires fileLayerCount.Some?
      modifies this`startLayer, this`fileLayerHeight, this`fileStartHeight
      ensures r == Pass <==> 0 <= layerAnswer <= fileLayerCount.value
      ensures r != Pass ==> r == Fail(StartLayerOutOfRange(fileLayerCount.value))
      ensures r != Pass ==> Message(r.error) == "Starting layer should be between 0 and " + NatToString(fileLayerCount.value)
      ensures r != Pass ==> startLayer == old(startLayer) && State() == old(State())
      ensures r == Pass ==> startLayer == layerAnswer
      ensures r == Pass ==> fileLayerHeight == (if layerHeightAnswer.Some? then layerHeightAnswer else old(fileLayerHeight))
      ensures r == Pass ==> fileStartHeight == (if startHeightAnswer.Some? then startHeightAnswer else old(fileStartHeight))
    {
      var layer := ValidateStartLayer(layerAnswer, fileLayerCount.value);
      if layer.Failure? {
        return Fail(layer.error);
      }
      startLayer := layer.value;
      if layerHeightAnswer.Some? {
        fileLayerHeight := layerHeightAnswer;
      }
      if startHeightAnswer.Some? {
        fileStartHeight := startHeightAnswer;
      }
      return Pass;
    }

    /** The rewrite pass: the lines it writes to the output file, in order.
        The running height lives in fileStartHeight, which ends one layer
        height above the first height per written Z line. The output file is
        opened for writing, and so truncated, before the first line is read:
        when the output path is the input path, the loop reads an empty file. */
    method GenerateNewGcode(source: Option<seq<string>>, destinationWritable: bool, render: real -> string)
      returns (r: Result<seq<string>, Error>)
      requires fileLayerCount.Some? && fileStartHeight.Some? && fileLayerHeight.Some?
      modifies this`fileStartHeight
      ensures source.None? ==> r == Failure(CannotOpenForReading(fileName)) && fileStartHeight == old(fileStartHeight)
      ensures source.None? ==> Message(r.error) == "Cannot open file '" + fileName + "'."
      ensures source.Some? && !destinationWritable ==>
        r == Failure(CannotOpenForWriting(newFileName)) && fileStartHeight == old(fileStartHeight)
      ensures source.Some? && !destinationWritable ==> Message(r.error) == "Cannot open file " + newFileName + "."
      ensures source.Some? && destinationWritable && newFileName != fileName ==>
        && r == Success(ReferenceOutput(old(Request()), render, source.value, |source.value|))
        && fileStartHeight == Some(HeightAt(old(Request()), EmittedZLines(old(Request()), source.value, |source.value|)))
      ensures source.Some? && destinationWritable && newFileName == fileName ==>
        r == Success([]) && fileStartHeight == old(fileStartHeight)
    {
      if source.None? {
        return Failure(CannotOpenForReading(fileName));
      }
      if !destinationWritable {
        return Failure(CannotOpenForWriting(newFileName));
      }
      var lines := if newFileName == fileName then [] else source.value;
      var out := RewriteLines(lines, render);
      return Success(out);
    }

    /** The loop of the rewrite pass, over the lines of an opened file. */
    method RewriteLines(lines: seq<string>, render: real -> string) returns (out: seq<string>)
      requires fileLayerCount.Some? && fileStartHeight.Some? && fileLayerHeight.Some?
      modifies this`fileStartHeight
      ensures out == ReferenceOutput(old(Request()), render, lines, |lines|)
      ensures fileStartHeight == Some(HeightAt(old(Request()), EmittedZLines(old(Request()), lines, |lines|)))
    {
      var t := Request();
      var addLineFlag := true;
      var layerCpt := 0;
      out := [];
      ghost var trace := Trace(t, render, lines);
      TraceEnds(t, render, lines);
      var i := 0;
      while i < |lines|
        invariant i <= |lines|
        invariant fileLayerHeight == Some(t.layerHeight) && fileStartHeight.Some?
        invariant RewriteState(addLineFlag, layerCpt, fileStartHeight.value, out) == trace[i]
      {
        addLineFlag, layerCpt, out := RewriteLineAt(t, render, lines, i, trace, addLineFlag, layerCpt, out);
        i := i + 1;
      }
    }

    /** One turn of the rewrite loop: the layer-count rewrite, the two markers
        that switch writing off and on, the renumbering of a written layer
        marker, the new height of a written Z line (which raises the running
        height in fileStartHeight by one layer), and the write itself. */
    method RewriteLineAt(t: TrimRequest, render: real -> string, lines: seq<string>, i: nat, ghost trace: seq<RewriteState>,
                         addLineFlag: bool, layerCpt: nat, out: seq<string>)
      returns (addLineFlag': bool, layerCpt': nat, out': seq<string>)
      requires i < |lines| && trace == Trace(t, render, lines)
      requires fileLayerHeight == Some(t.layerHeight) && fileStartHeight.Some?
      requires RewriteState(addLineFlag, layerCpt, fileStartHeight.value, out) == trace[i]
      modifies this`fileStartHeight
      ensures fileStartHeight.Some?
      ensures RewriteState(addLineFlag', layerCpt', fileStartHeight.value, out') == trace[i + 1]
    {
      TraceStep(t, render, lines, i);
      addLineFlag', layerCpt', out' := addLineFlag, layerCpt, out;
      var line := lines[i];
      if Matches(CountTag, line) {
        line := ReplaceAll(CountTag, line, CountMarker(t));
      }
      if ZeroLine(line) {
        addLineFlag' := false;
      }
      if StartLine(t, line) {
        addLineFlag' := true;
      }
      if addLineFlag' && Matches(LayerTag, line) {
        line := Renumbered(line, layerCpt');
        layerCpt' := layerCpt' + 1;
      }
      if addLineFlag' && Matches(ZToken, line) {
        line := Reheighted(line, render, fileStartHeight.value);
        fileStartHeight := Some(fileStartHeight.value + fileLayerHeight.value);
      }
      if addLineFlag' {
        out' := out' + [line];
      }
    }
  }
}
