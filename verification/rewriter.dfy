/** The second pass of the trim command: a two-state machine over the source
    lines (emitting or skipping) that keeps the header and the lines from the
    chosen layer on, rewrites the layer-count marker, renumbers the layer
    markers from 0 and replaces Z heights with a running height. */
module Rewriter {
  import opened Decimal
  import opened Patterns
  import opened Gate

  /** The parameters of one trim: the analysed layer count, the chosen start
      layer, and the two heights (as analysed, or as the user overrode them). */
  datatype TrimRequest = TrimRequest(layerCount: nat, startLayer: nat, firstHeight: real, layerHeight: real)

  const ZERO_MARKER := ";LAYER:0"

  /** The text every `;LAYER_COUNT:\d+` becomes. */
  function CountMarker(t: TrimRequest): string {
    COUNT_TAG + IntToString(t.layerCount - t.startLayer)
  }

  /** The marker is the tag followed by the number of layers the trimmed file keeps. */
  lemma {:induction false} CountMarkerStatesRemainingLayers(t: TrimRequest)
    ensures var m := CountMarker(t);
      |m| > |COUNT_TAG| && m[..|COUNT_TAG|] == COUNT_TAG
    ensures var m := CountMarker(t);
      t.startLayer <= t.layerCount ==> AllDigits(m[|COUNT_TAG|..]) && ParseNat(m[|COUNT_TAG|..]) == t.layerCount - t.startLayer
    ensures var m := CountMarker(t);
      m[|COUNT_TAG|] == '0' ==> t.layerCount == t.startLayer && m == COUNT_TAG + "0"
  {
    var n := IntToString(t.layerCount - t.startLayer);
    var m := COUNT_TAG + n;
    assert m[..|COUNT_TAG|] == COUNT_TAG;
    assert m[|COUNT_TAG|..] == n;
  }

  /** The marker that switches emission back on: ";LAYER:" and the start layer. */
  function StartMarker(t: TrimRequest): string {
    LAYER_TAG + NatToString(t.startLayer)
  }

  /** The line after the layer-count rewrite, which every line goes through. */
  function WithCount(t: TrimRequest, line: string): string {
    if Matches(CountTag, line) then ReplaceAll(CountTag, line, CountMarker(t)) else line
  }

  predicate ZeroLine(l: string) {
    Matches(Literal(ZERO_MARKER), l)
  }

  /** An unanchored match: with start layer 1, ";LAYER:12" is a start line too. */
  predicate StartLine(t: TrimRequest, l: string) {
    Matches(Literal(StartMarker(t)), l)
  }

  /** Every digit run on the line becomes the counter. */
  function Renumbered(l: string, layerCpt: nat): string {
    ReplaceAll(DigitRun, l, NatToString(layerCpt))
  }

  /** Every Z token on the line becomes "Z" and the height as `render` prints it. */
  function Reheighted(l: string, render: real -> string, height: real): string {
    ReplaceAll(ZToken, l, "Z" + render(height))
  }

  // ----- a declarative description of what the loop writes -----

  predicate ZeroAt(t: TrimRequest, lines: seq<string>, j: nat)
    requires j < |lines|
  {
    ZeroLine(WithCount(t, lines[j]))
  }

  predicate StartAt(t: TrimRequest, lines: seq<string>, j: nat)
    requires j < |lines|
  {
    StartLine(t, WithCount(t, lines[j]))
  }

  /** Which lines clear the flag and which set it. */
  function Zeros(t: TrimRequest, lines: seq<string>): (zs: seq<bool>)
    ensures |zs| == |lines|
  {
    seq(|lines|, j requires 0 <= j < |lines| => ZeroAt(t, lines, j))
  }

  function Starts(t: TrimRequest, lines: seq<string>): (ss: seq<bool>)
    ensures |ss| == |lines|
  {
    seq(|lines|, j requires 0 <= j < |lines| => StartAt(t, lines, j))
  }

  /** The flag after line i: whether line i is written. */
  predicate EmittedAt(t: TrimRequest, lines: seq<string>, i: nat)
    requires i < |lines|
  {
    Flag(Zeros(t, lines), Starts(t, lines), i)
  }

  /** Line i is written exactly when every ";LAYER:0" line up to i is followed,
      at or after it and up to i, by a start-marker line. */
  predicate GateOpen(t: TrimRequest, lines: seq<string>, i: nat)
    requires i < |lines|
  {
    forall j :: 0 <= j <= i && ZeroAt(t, lines, j) ==> exists m :: j <= m <= i && StartAt(t, lines, m)
  }

  /** Line i is a written layer-marker line. */
  predicate MarkerAt(t: TrimRequest, lines: seq<string>, i: nat)
    requires i < |lines|
  {
    EmittedAt(t, lines, i) && Matches(LayerTag, WithCount(t, lines[i]))
  }

  function Markers(t: TrimRequest, lines: seq<string>): (ms: seq<bool>)
    ensures |ms| == |lines|
  {
    seq(|lines|, i requires 0 <= i < |lines| => MarkerAt(t, lines, i))
  }

  /** Number of written layer-marker lines among the first n. */
  function EmittedMarkers(t: TrimRequest, lines: seq<string>, n: nat): nat
    requires n <= |lines|
  {
    CountTrue(Markers(t, lines), n)
  }

  /** Line i after renumbering: a marker line gets the number of markers written before it. */
  function NumberedLine(t: TrimRequest, lines: seq<string>, i: nat): string
    requires i < |lines|
  {
    var l1 := WithCount(t, lines[i]);
    if Matches(LayerTag, l1) then Renumbered(l1, EmittedMarkers(t, lines, i)) else l1
  }

  /** Line i is written and, once renumbered, carries a Z token. */
  predicate RaisedAt(t: TrimRequest, lines: seq<string>, i: nat)
    requires i < |lines|
  {
    EmittedAt(t, lines, i) && Matches(ZToken, NumberedLine(t, lines, i))
  }

  function Raised(t: TrimRequest, lines: seq<string>): (rs: seq<bool>)
    ensures |rs| == |lines|
  {
    seq(|lines|, i requires 0 <= i < |lines| => RaisedAt(t, lines, i))
  }

  /** Number of written lines, among the first n, that carry a Z token. */
  function EmittedZLines(t: TrimRequest, lines: seq<string>, n: nat): nat
    requires n <= |lines|
  {
    CountTrue(Raised(t, lines), n)
  }

  /** The height written into the k-th written Z line (k from 0): each one
      is the layer height above the previous one. */
  function HeightAt(t: TrimRequest, k: nat): real {
    if k == 0 then t.firstHeight else HeightAt(t, k - 1) + t.layerHeight
  }

  /** The heights form the arithmetic progression firstHeight + k * layerHeight. */
  lemma {:induction false} HeightAtIsProgression(t: TrimRequest, k: nat)
    ensures HeightAt(t, k) == t.firstHeight + k as real * t.layerHeight
  {
    if k > 0 {
      HeightAtIsProgression(t, k - 1);
      assert (k - 1) as real * t.layerHeight + t.layerHeight == k as real * t.layerHeight;
    }
  }

  /** A height that starts at the first height and rises one layer at every
      marked entry among the first n. */
  function Climb(t: TrimRequest, marks: seq<bool>, n: nat): real
    requires n <= |marks|
  {
    if n == 0 then t.firstHeight else Climb(t, marks, n - 1) + if marks[n - 1] then t.layerHeight else 0.0
  }

  /** Climbing entry by entry reaches the height of the number of marked entries. */
  lemma {:induction false} ClimbIsHeightAt(t: TrimRequest, marks: seq<bool>, n: nat)
    requires n <= |marks|
    ensures Climb(t, marks, n) == HeightAt(t, CountTrue(marks, n))
  {
    if n > 0 {
      ClimbIsHeightAt(t, marks, n - 1);
    }
  }

  /** The running height before line n: one layer up per written Z line. */
  function HeightBefore(t: TrimRequest, lines: seq<string>, n: nat): real
    requires n <= |lines|
  {
    Climb(t, Raised(t, lines), n)
  }

  /** Line i as written: renumbered, then every Z token set to the height of
      the Z lines written before it. */
  function OutLine(t: TrimRequest, render: real -> string, lines: seq<string>, i: nat): string
    requires i < |lines|
  {
    var l2 := NumberedLine(t, lines, i);
    if Matches(ZToken, l2) then Reheighted(l2, render, HeightAt(t, EmittedZLines(t, lines, i))) else l2
  }

  function Emitted(t: TrimRequest, lines: seq<string>): (es: seq<bool>)
    ensures |es| == |lines|
  {
    seq(|lines|, i requires 0 <= i < |lines| => EmittedAt(t, lines, i))
  }

  function OutLines(t: TrimRequest, render: real -> string, lines: seq<string>): (os: seq<string>)
    ensures |os| == |lines|
  {
    seq(|lines|, i requires 0 <= i < |lines| => OutLine(t, render, lines, i))
  }

  /** The written lines among the first n, in source order. */
  function ReferenceOutput(t: TrimRequest, render: real -> string, lines: seq<string>, n: nat): seq<string>
    requires n <= |lines|
  {
    Kept(Emitted(t, lines), OutLines(t, render, lines), n)
  }

  /** The output is a subsequence of the transformed lines: one line per
      written source line, and written line i appears, as OutLine(i), after
      the lines written before it. */
  lemma {:induction false} OutputIsWrittenLines(t: TrimRequest, render: real -> string, lines: seq<string>, i: nat, n: nat)
    requires i < n <= |lines| && EmittedAt(t, lines, i)
    ensures |ReferenceOutput(t, render, lines, n)| == CountTrue(Emitted(t, lines), n)
    ensures var k := CountTrue(Emitted(t, lines), i);
      k < |ReferenceOutput(t, render, lines, n)| && ReferenceOutput(t, render, lines, n)[k] == OutLine(t, render, lines, i)
  {
    var es := Emitted(t, lines);
    var os := OutLines(t, render, lines);
    assert es[i];
    KeptInOrder(es, os, i, n);
  }

  /** Which lines are written, stated without the flag: line i is written iff
      every ";LAYER:0" line up to i has a start-marker line at or after it, up to i. */
  lemma {:induction false} EmittedAtIff(t: TrimRequest, lines: seq<string>, i: nat)
    requires i < |lines|
    ensures EmittedAt(t, lines, i) <==> GateOpen(t, lines, i)
  {
    var zs, ss := Zeros(t, lines), Starts(t, lines);
    FlagIff(zs, ss, i);
    assert Open(zs, ss, i) <==> GateOpen(t, lines, i) by {
      if Open(zs, ss, i) {
        forall j | 0 <= j <= i && ZeroAt(t, lines, j)
          ensures exists m :: j <= m <= i && StartAt(t, lines, m)
        {
          assert zs[j];
          var m :| j <= m <= i && ss[m];
          assert StartAt(t, lines, m);
        }
      } else {
        var j :| 0 <= j <= i && zs[j] && !exists m :: j <= m <= i && ss[m];
        assert ZeroAt(t, lines, j);
        forall m | j <= m <= i
          ensures !StartAt(t, lines, m)
        {
          assert !ss[m];
        }
      }
    }
  }

  /** What one iteration of the loop has to do to keep the reference state:
      line i after the count rewrite sets the flag as the two markers say, is
      renumbered when it is a written marker line, is re-heighted when it is a
      written Z line, and is appended when written. */
  lemma {:induction false} LoopStep(t: TrimRequest, render: real -> string, lines: seq<string>, i: nat)
    requires i < |lines|
    ensures var l1 := WithCount(t, lines[i]);
      EmittedAt(t, lines, i) ==
        if StartLine(t, l1) then true else if ZeroLine(l1) then false else i == 0 || EmittedAt(t, lines, i - 1)
    ensures MarkerAt(t, lines, i) == (EmittedAt(t, lines, i) && Matches(LayerTag, WithCount(t, lines[i])))
    ensures EmittedMarkers(t, lines, i + 1) == EmittedMarkers(t, lines, i) + if MarkerAt(t, lines, i) then 1 else 0
    ensures var l1 := WithCount(t, lines[i]);
      var l2 := if MarkerAt(t, lines, i) then Renumbered(l1, EmittedMarkers(t, lines, i)) else l1;
      && RaisedAt(t, lines, i) == (EmittedAt(t, lines, i) && Matches(ZToken, l2))
      && (EmittedAt(t, lines, i) ==>
            OutLine(t, render, lines, i) ==
              (if RaisedAt(t, lines, i) then Reheighted(l2, render, HeightBefore(t, lines, i)) else l2))
    ensures HeightBefore(t, lines, i + 1) == HeightBefore(t, lines, i) + if RaisedAt(t, lines, i) then t.layerHeight else 0.0
    ensures EmittedAt(t, lines, i) ==>
      ReferenceOutput(t, render, lines, i + 1) == ReferenceOutput(t, render, lines, i) + [OutLine(t, render, lines, i)]
    ensures !EmittedAt(t, lines, i) ==> ReferenceOutput(t, render, lines, i + 1) == ReferenceOutput(t, render, lines, i)
  {
    var es := Emitted(t, lines);
    var os := OutLines(t, render, lines);
    assert es[i] == EmittedAt(t, lines, i);
    assert os[i] == OutLine(t, render, lines, i);
    assert Markers(t, lines)[i] == MarkerAt(t, lines, i);
    assert Raised(t, lines)[i] == RaisedAt(t, lines, i);
    ClimbIsHeightAt(t, Raised(t, lines), i);
    assert Zeros(t, lines)[i] == ZeroAt(t, lines, i);
    assert Starts(t, lines)[i] == StartAt(t, lines, i);
  }

  // ----- the loop, one line at a time -----

  /** The loop's variables: the emission flag, the layer counter, the running
      height, and the lines written so far. */
  datatype RewriteState = RewriteState(addLineFlag: bool, layerCpt: nat, height: real, written: seq<string>)

  /** One turn of the loop on one source line. */
  function RewriteLine(t: TrimRequest, render: real -> string, st: RewriteState, line: string): RewriteState {
    var l1 := WithCount(t, line);
    var flag := if StartLine(t, l1) then true else if ZeroLine(l1) then false else st.addLineFlag;
    var renumber := flag && Matches(LayerTag, l1);
    var l2 := if renumber then Renumbered(l1, st.layerCpt) else l1;
    var raise := flag && Matches(ZToken, l2);
    var l3 := if raise then Reheighted(l2, render, st.height) else l2;
    RewriteState(
      flag,
      if renumber then st.layerCpt + 1 else st.layerCpt,
      if raise then st.height + t.layerHeight else st.height,
      if flag then st.written + [l3] else st.written)
  }

  /** The loop's variables after the first k lines, stated without the loop:
      whether line k - 1 was written, the number of written layer markers, the
      height for the next written Z line, and the reference output. */
  function Expected(t: TrimRequest, render: real -> string, lines: seq<string>, k: nat): RewriteState
    requires k <= |lines|
  {
    RewriteState(
      k == 0 || EmittedAt(t, lines, k - 1),
      EmittedMarkers(t, lines, k),
      HeightBefore(t, lines, k),
      ReferenceOutput(t, render, lines, k))
  }

  /** One turn of the loop takes the expected state before line k to the one after it. */
  lemma {:induction false} StepIsExpected(t: TrimRequest, render: real -> string, lines: seq<string>, k: nat)
    requires k < |lines|
    ensures RewriteLine(t, render, Expected(t, render, lines, k), lines[k]) == Expected(t, render, lines, k + 1)
  {
    LoopStep(t, render, lines, k);
  }

  /** The expected state before each line and after the last one, in order. */
  ghost function Trace(t: TrimRequest, render: real -> string, lines: seq<string>): (r: seq<RewriteState>)
    ensures |r| == |lines| + 1
  {
    Tabulate((k: nat) requires k <= |lines| => Expected(t, render, lines, k), |lines|)
  }

  /** One turn of the loop takes the trace from line k to line k + 1. */
  lemma {:induction false} TraceStep(t: TrimRequest, render: real -> string, lines: seq<string>, k: nat)
    requires k < |lines|
    ensures var trace := Trace(t, render, lines);
      RewriteLine(t, render, trace[k], lines[k]) == trace[k + 1]
  {
    var f := (k: nat) requires k <= |lines| => Expected(t, render, lines, k);
    var line := lines[k];
    var g := (st: RewriteState) => RewriteLine(t, render, st, line);
    StepIsExpected(t, render, lines, k);
    TabulateStep(f, g, |lines|, k);
  }

  /** The trace starts from the initial state and ends at the expected final state. */
  lemma {:induction false} TraceEnds(t: TrimRequest, render: real -> string, lines: seq<string>)
    ensures Trace(t, render, lines)[0] == RewriteState(true, 0, t.firstHeight, [])
    ensures Trace(t, render, lines)[|lines|].layerCpt == EmittedMarkers(t, lines, |lines|)
    ensures Trace(t, render, lines)[|lines|].written == ReferenceOutput(t, render, lines, |lines|)
    ensures Trace(t, render, lines)[|lines|].height == HeightAt(t, EmittedZLines(t, lines, |lines|))
  {
    var f := (k: nat) requires k <= |lines| => Expected(t, render, lines, k);
    TabulateIndex(f, |lines|, 0);
    TabulateIndex(f, |lines|, |lines|);
    ClimbIsHeightAt(t, Raised(t, lines), |lines|);
  }

  // ----- consequences -----

  /** The header, before any ";LAYER:0" line, is written. */
  lemma {:induction false} HeaderIsWritten(t: TrimRequest, lines: seq<string>, i: nat)
    requires i < |lines|
    requires forall j :: 0 <= j <= i ==> !ZeroAt(t, lines, j)
    ensures EmittedAt(t, lines, i)
  {
    EmittedAtIff(t, lines, i);
  }

  /** From a ";LAYER:0" line that is not a start line, nothing is written until a start line. */
  lemma {:induction false} SkippedAfterLayerZero(t: TrimRequest, lines: seq<string>, j: nat, i: nat)
    requires j <= i < |lines|
    requires ZeroAt(t, lines, j) && !StartAt(t, lines, j)
    requires forall m :: j < m <= i ==> !StartAt(t, lines, m)
    ensures !EmittedAt(t, lines, i)
  {
    assert !exists m :: j <= m <= i && StartAt(t, lines, m);
    assert !GateOpen(t, lines, i);
    EmittedAtIff(t, lines, i);
  }

  /** A start line and the lines after it are written, up to the next ";LAYER:0" line. */
  lemma {:induction false} ResumedAtStartLine(t: TrimRequest, lines: seq<string>, j: nat, i: nat)
    requires j <= i < |lines|
    requires StartAt(t, lines, j)
    requires forall m :: j < m <= i ==> !ZeroAt(t, lines, m)
    ensures EmittedAt(t, lines, i)
  {
    forall z | 0 <= z <= i && ZeroAt(t, lines, z)
      ensures exists m :: z <= m <= i && StartAt(t, lines, m)
    {
      assert z <= j && StartAt(t, lines, j);
    }
    EmittedAtIff(t, lines, i);
  }

  /** With start layer 0 the start marker is ";LAYER:0" itself: every line is written. */
  lemma {:induction false} StartLayerZeroEmitsAll(t: TrimRequest, lines: seq<string>, i: nat)
    requires t.startLayer == 0 && i < |lines|
    ensures EmittedAt(t, lines, i)
  {
    assert StartMarker(t) == ZERO_MARKER;
    forall z | 0 <= z <= i && ZeroAt(t, lines, z)
      ensures exists m :: z <= m <= i && StartAt(t, lines, m)
    {
      assert StartAt(t, lines, z);
    }
    EmittedAtIff(t, lines, i);
  }

  /** With start layer 0 the output has one line per source line. */
  lemma {:induction false} StartLayerZeroKeepsEveryLine(t: TrimRequest, render: real -> string, lines: seq<string>)
    requires t.startLayer == 0
    ensures |ReferenceOutput(t, render, lines, |lines|)| == |lines|
  {
    var es := Emitted(t, lines);
    forall j | 0 <= j < |lines|
      ensures es[j]
    {
      StartLayerZeroEmitsAll(t, lines, j);
    }
    CountTrueAll(es, |lines|);
  }

  /** Lines that are not written marker lines do not advance the counter. */
  lemma {:induction false} MarkersUnchanged(t: TrimRequest, lines: seq<string>, a: nat, b: nat)
    requires a <= b <= |lines|
    requires forall j :: a <= j < b ==> !MarkerAt(t, lines, j)
    ensures EmittedMarkers(t, lines, b) == EmittedMarkers(t, lines, a)
  {
    var ms := Markers(t, lines);
    assert forall j :: a <= j < b ==> !ms[j];
    CountTrueUnchanged(ms, a, b);
  }

  /** The first written marker line is numbered 0. */
  lemma {:induction false} FirstMarkerNumberedZero(t: TrimRequest, lines: seq<string>, i: nat)
    requires i < |lines| && MarkerAt(t, lines, i)
    requires forall j :: 0 <= j < i ==> !MarkerAt(t, lines, j)
    ensures EmittedMarkers(t, lines, i) == 0
    ensures NumberedLine(t, lines, i) == Renumbered(WithCount(t, lines[i]), 0)
  {
    MarkersUnchanged(t, lines, 0, i);
  }

  /** Each later written marker line is numbered one more than the previous one. */
  lemma {:induction false} NextMarkerNumberedNext(t: TrimRequest, lines: seq<string>, i: nat, i': nat)
    requires i < i' < |lines| && MarkerAt(t, lines, i) && MarkerAt(t, lines, i')
    requires forall j :: i < j < i' ==> !MarkerAt(t, lines, j)
    ensures EmittedMarkers(t, lines, i') == EmittedMarkers(t, lines, i) + 1
  {
    var ms := Markers(t, lines);
    assert ms[i];
    assert forall j :: i < j < i' ==> !ms[j];
    CountTrueNext(ms, i, i');
  }

  /** Lines that are not written Z lines do not advance the height. */
  lemma {:induction false} ZLinesUnchanged(t: TrimRequest, lines: seq<string>, a: nat, b: nat)
    requires a <= b <= |lines|
    requires forall j :: a <= j < b ==> !RaisedAt(t, lines, j)
    ensures EmittedZLines(t, lines, b) == EmittedZLines(t, lines, a)
  {
    var rs := Raised(t, lines);
    assert forall j :: a <= j < b ==> !rs[j];
    CountTrueUnchanged(rs, a, b);
  }

  /** The first written Z line gets the first layer's height. */
  lemma {:induction false} FirstZLineAtFirstHeight(t: TrimRequest, lines: seq<string>, i: nat)
    requires i < |lines| && RaisedAt(t, lines, i)
    requires forall j :: 0 <= j < i ==> !RaisedAt(t, lines, j)
    ensures HeightAt(t, EmittedZLines(t, lines, i)) == t.firstHeight
  {
    ZLinesUnchanged(t, lines, 0, i);
  }

  /** In the k-th written Z line (k from 0), after renumbering, the text before
      the first Z token is kept, that token becomes "Z" and the rendered k-th
      height (firstHeight + k * layerHeight by HeightAtIsProgression), and the
      rest of the line is scanned on for further tokens, which get the same text. */
  lemma {:induction false} ZLineHeight(t: TrimRequest, render: real -> string, lines: seq<string>, i: nat)
    requires i < |lines| && RaisedAt(t, lines, i)
    ensures var l := NumberedLine(t, lines, i);
      var j := FirstMatch(ZToken, l);
      var z := "Z" + render(HeightAt(t, EmittedZLines(t, lines, i)));
      j < |l| && OutLine(t, render, lines, i) == l[..j] + z + ReplaceFrom(ZToken, l, z, MatchEnd(ZToken, l, j))
  {
    var l := NumberedLine(t, lines, i);
    var k := EmittedZLines(t, lines, i);
    assert Matches(ZToken, l);
    assert OutLine(t, render, lines, i) == Reheighted(l, render, HeightAt(t, k));
    ReplaceAllFirst(ZToken, l, "Z" + render(HeightAt(t, k)));
  }

  /** Between two consecutive marked lines the height rises by one layer. */
  lemma {:induction false} HeightAtNextMark(t: TrimRequest, marks: seq<bool>, i: nat, i': nat)
    requires i < i' <= |marks| && marks[i]
    requires forall j :: i < j < i' ==> !marks[j]
    ensures HeightAt(t, CountTrue(marks, i')) == HeightAt(t, CountTrue(marks, i)) + t.layerHeight
  {
    CountTrueNext(marks, i, i');
  }

  /** Each later written Z line is one layer height above the previous one. */
  lemma {:induction false} NextZLineOneLayerUp(t: TrimRequest, lines: seq<string>, i: nat, i': nat)
    requires i < i' < |lines| && RaisedAt(t, lines, i) && RaisedAt(t, lines, i')
    requires forall j :: i < j < i' ==> !RaisedAt(t, lines, j)
    ensures HeightAt(t, EmittedZLines(t, lines, i')) == HeightAt(t, EmittedZLines(t, lines, i)) + t.layerHeight
  {
    var rs := Raised(t, lines);
    assert rs[i];
    assert forall j :: i < j < i' ==> !rs[j];
    HeightAtNextMark(t, rs, i, i');
  }
}
