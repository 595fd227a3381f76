/** The first pass of the trim command: one forward scan of the source lines
    that derives the layer count, the first layer's height and the layer
    height, stopping as soon as the layer height is known. */
module Analyzer {
  import opened Wrappers
  import opened Decimal
  import opened Patterns

  /** The three values the scan derives; None is an unset field. */
  datatype Analysis = Analysis(layerCount: Option<nat>, startHeight: Option<real>, layerHeight: Option<real>)

  const Unset := Analysis(None, None, None)

  /** The analysis succeeds when all three values are set. */
  predicate Complete(a: Analysis) {
    a.layerCount.Some? && a.startHeight.Some? && a.layerHeight.Some?
  }

  /** One line of the scan, in the source's order: the count marker, then the
      layer height (only once a first height is known), then the first height. */
  function AnalyzeStep(st: Analysis, line: string): (r: Analysis)
    // a set count or first height is never changed
    ensures st.layerCount.Some? ==> r.layerCount == st.layerCount
    ensures st.startHeight.Some? ==> r.startHeight == st.startHeight
    // one line never sets both heights: the difference needs a first height already set
    ensures st.startHeight.None? ==> r.layerHeight == st.layerHeight
  {
    var count := if st.layerCount.None? && Matches(CountTag, line) then Some(CountValue(line)) else st.layerCount;
    var z := G0ZCapture(line);
    var layerHeight :=
      if st.startHeight.Some? && z.Some? then Some(Round2(CapturedHeight(line) - st.startHeight.value))
      else st.layerHeight;
    var startHeight := if st.startHeight.None? && z.Some? then Some(CapturedHeight(line)) else st.startHeight;
    Analysis(count, startHeight, layerHeight)
  }

  /** The scan from line k on, leaving the loop right after the line that sets the layer height. */
  function Scan(st: Analysis, lines: seq<string>, k: nat): Analysis
    requires k <= |lines|
    decreases |lines| - k
  {
    if k == |lines| then st
    else
      var next := AnalyzeStep(st, lines[k]);
      if next.layerHeight.Some? then next else Scan(next, lines, k + 1)
  }

  // ----- a declarative description of the scan's result -----

  predicate IsZLine(line: string) {
    G0ZCapture(line).Some?
  }

  predicate IsCountLine(line: string) {
    Matches(CountTag, line)
  }

  /** The first line at or after k that `G0.*Z\d+\.\d+` matches, or |lines|. */
  function ZLineFrom(lines: seq<string>, k: nat): (i: nat)
    requires k <= |lines|
    ensures k <= i <= |lines|
    ensures i < |lines| ==> IsZLine(lines[i])
    ensures forall m :: k <= m < i ==> !IsZLine(lines[m])
    decreases |lines| - k
  {
    if k == |lines| || IsZLine(lines[k]) then k else ZLineFrom(lines, k + 1)
  }

  /** The first line that `;LAYER_COUNT:\d+` matches, or |lines|. */
  function CountLineFrom(lines: seq<string>, k: nat): (i: nat)
    requires k <= |lines|
    ensures k <= i <= |lines|
    ensures i < |lines| ==> IsCountLine(lines[i])
    ensures forall m :: k <= m < i ==> !IsCountLine(lines[m])
    decreases |lines| - k
  {
    if k == |lines| || IsCountLine(lines[k]) then k else CountLineFrom(lines, k + 1)
  }

  function FirstZLine(lines: seq<string>): nat {
    ZLineFrom(lines, 0)
  }

  /** The second G0-Z line: the one that fixes the layer height and ends the scan. */
  function SecondZLine(lines: seq<string>): (b: nat)
    ensures FirstZLine(lines) <= b <= |lines|
    ensures b < |lines| ==> FirstZLine(lines) < b
  {
    var a := FirstZLine(lines);
    if a < |lines| then ZLineFrom(lines, a + 1) else |lines|
  }

  /** What the scan yields, stated without the loop: the count of the first
      count line up to the second G0-Z line, the first G0-Z line's height, and
      the second one's height minus the first, rounded to two decimals. */
  ghost function ExpectedAnalysis(lines: seq<string>): Analysis {
    var a := FirstZLine(lines);
    var b := SecondZLine(lines);
    var c := CountLineFrom(lines, 0);
    Analysis(
      if c < |lines| && c <= b then Some(CountValue(lines[c])) else None,
      if a < |lines| then Some(CapturedHeight(lines[a])) else None,
      if b < |lines| then Some(Round2(CapturedHeight(lines[b]) - CapturedHeight(lines[a]))) else None)
  }

  /** The state the scan holds before line k, for k up to the second G0-Z line. */
  ghost function StateBefore(lines: seq<string>, k: nat): Analysis
    requires k <= |lines|
  {
    var a := FirstZLine(lines);
    var c := CountLineFrom(lines, 0);
    Analysis(
      if c < k then Some(CountValue(lines[c])) else None,
      if a < k then Some(CapturedHeight(lines[a])) else None,
      None)
  }

  /** One step of the scan before the second G0-Z line: it either reaches the
      expected result (at the second G0-Z line) or the state before the next line. */
  lemma {:induction false} StepBeforeSecondZLine(lines: seq<string>, k: nat)
    requires k < |lines| && k <= SecondZLine(lines)
    ensures var next := AnalyzeStep(StateBefore(lines, k), lines[k]);
      if k == SecondZLine(lines) then next == ExpectedAnalysis(lines)
      else next == StateBefore(lines, k + 1)
  {
    var a := FirstZLine(lines);
    var b := SecondZLine(lines);
    var c := CountLineFrom(lines, 0);
    var line := lines[k];
    var next := AnalyzeStep(StateBefore(lines, k), line);
    assert next.layerCount == (if c < k + 1 then Some(CountValue(lines[c])) else None) by {
      if c >= k && IsCountLine(line) {
        assert c == k;
      }
    }
    assert next.startHeight == (if a < k + 1 then Some(CapturedHeight(lines[a])) else None) by {
      if a >= k && IsZLine(line) {
        assert a == k;
      }
    }
    if k == b {
      assert a < k && IsZLine(line);
    } else {
      assert a < k ==> !IsZLine(line);
    }
  }

  /** A scan that reaches the end never saw a second G0-Z line. */
  lemma {:induction false} EndWithoutSecondZLine(lines: seq<string>)
    requires SecondZLine(lines) == |lines|
    ensures Scan(StateBefore(lines, |lines|), lines, |lines|) == ExpectedAnalysis(lines)
  {
    var c := CountLineFrom(lines, 0);
    assert c < |lines| ==> c <= SecondZLine(lines);
  }

  lemma {:induction false} ScanFromMatchesExpected(lines: seq<string>, k: nat)
    requires k <= |lines| && k <= SecondZLine(lines)
    ensures Scan(StateBefore(lines, k), lines, k) == ExpectedAnalysis(lines)
    decreases |lines| - k
  {
    var st := StateBefore(lines, k);
    if k == |lines| {
      EndWithoutSecondZLine(lines);
    } else {
      var next := AnalyzeStep(st, lines[k]);
      StepBeforeSecondZLine(lines, k);
      if k == SecondZLine(lines) {
        assert Scan(st, lines, k) == next;
      } else {
        assert Scan(st, lines, k) == Scan(next, lines, k + 1);
        ScanFromMatchesExpected(lines, k + 1);
      }
    }
  }

  /** From unset fields, the scan computes exactly ExpectedAnalysis. */
  lemma {:induction false} AnalysisMatchesExpected(lines: seq<string>)
    ensures Scan(Unset, lines, 0) == ExpectedAnalysis(lines)
  {
    assert StateBefore(lines, 0) == Unset;
    ScanFromMatchesExpected(lines, 0);
  }

  /** The analysis fails ("Gcode file is invalid.") exactly when there are fewer
      than two G0-Z lines, or when no count marker comes at or before the second
      G0-Z line, where the scan stops. */
  lemma {:induction false} AnalysisFailsExactly(lines: seq<string>)
    ensures !Complete(Scan(Unset, lines, 0)) <==>
      SecondZLine(lines) == |lines| || CountLineFrom(lines, 0) > SecondZLine(lines)
  {
    AnalysisMatchesExpected(lines);
  }

  /** On success the count is that of the first count marker: later markers never change it. */
  lemma {:induction false} LayerCountIsFirstMarker(lines: seq<string>, i: nat)
    requires i < |lines| && IsCountLine(lines[i])
    requires forall m :: 0 <= m < i ==> !IsCountLine(lines[m])
    requires Complete(Scan(Unset, lines, 0))
    ensures Scan(Unset, lines, 0).layerCount == Some(CountValue(lines[i]))
  {
    AnalysisMatchesExpected(lines);
    assert CountLineFrom(lines, 0) == i;
  }

  /** On success the layer height comes from two distinct G0-Z lines, the first
      two, and is their difference rounded to two decimals. */
  lemma {:induction false} LayerHeightFromFirstTwoZLines(lines: seq<string>, a: nat, b: nat)
    requires a < b < |lines| && IsZLine(lines[a]) && IsZLine(lines[b])
    requires forall m :: 0 <= m < b && m != a ==> !IsZLine(lines[m])
    ensures Scan(Unset, lines, 0).startHeight == Some(CapturedHeight(lines[a]))
    ensures Scan(Unset, lines, 0).layerHeight == Some(Round2(CapturedHeight(lines[b]) - CapturedHeight(lines[a])))
  {
    AnalysisMatchesExpected(lines);
    assert FirstZLine(lines) == a;
    assert ZLineFrom(lines, a + 1) == b;
    var e := ExpectedAnalysis(lines);
    assert e.layerHeight == Some(Round2(CapturedHeight(lines[b]) - CapturedHeight(lines[a])));
  }
}
