/** The regular expressions the trim command applies to one line of G-code,
    written out as explicit matchers. `MatchEnd` gives the greedy match starting
    at a position, `FirstMatch` the leftmost one (what preg_match finds), and
    `ReplaceAll` replaces every leftmost, non-overlapping match, resuming after
    each one (what preg_replace and str_replace do). */
module Patterns {
  import opened Wrappers
  import opened Decimal

  datatype Pattern =
    | Literal(text: string)  // a fixed string: ";LAYER:0", ";LAYER:<n>", ".gcode"
    | CountTag               // ;LAYER_COUNT:\d+
    | LayerTag               // ;LAYER:\d+
    | DigitRun               // \d+
    | ZToken                 // Z\d+\.\d+

  const COUNT_TAG := ";LAYER_COUNT:"
  const LAYER_TAG := ";LAYER:"

  /** t occurs in s at position i. */
  predicate HasAt(s: string, t: string, i: nat) {
    i + |t| <= |s| && SameFrom(s, t, i, 0)
  }

  /** s agrees with t at position i from t's j-th character on. */
  predicate SameFrom(s: string, t: string, i: nat, j: nat)
    requires i + |t| <= |s| && j <= |t|
    decreases |t| - j
  {
    j == |t| || (s[i + j] == t[j] && SameFrom(s, t, i, j + 1))
  }

  /** The character-by-character comparison is slice equality. */
  lemma {:induction false} HasAtIff(s: string, t: string, i: nat)
    ensures HasAt(s, t, i) <==> i + |t| <= |s| && s[i..i + |t|] == t
  {
    if i + |t| <= |s| {
      SameFromIff(s, t, i, 0);
      assert t[0..] == t;
    }
  }

  lemma {:induction false} SameFromIff(s: string, t: string, i: nat, j: nat)
    requires i + |t| <= |s| && j <= |t|
    ensures SameFrom(s, t, i, j) <==> s[i + j..i + |t|] == t[j..]
    decreases |t| - j
  {
    if j < |t| {
      SameFromIff(s, t, i, j + 1);
      assert s[i + j..i + |t|] == [s[i + j]] + s[i + j + 1..i + |t|];
      assert t[j..] == [t[j]] + t[j + 1..];
    }
  }

  /** End of the longest run of digits starting at i. */
  function DigitsEnd(s: string, i: nat): (e: nat)
    requires i <= |s|
    ensures i <= e <= |s|
    decreases |s| - i
  {
    if i < |s| && IsDigit(s[i]) then DigitsEnd(s, i + 1) else i
  }

  /** DigitsEnd stops at the first non-digit: what lies before it is digits. */
  lemma {:induction false} DigitsEndIsMaximalRun(s: string, i: nat)
    requires i <= |s|
    ensures AllDigits(s[i..DigitsEnd(s, i)])
    ensures DigitsEnd(s, i) < |s| ==> !IsDigit(s[DigitsEnd(s, i)])
    decreases |s| - i
  {
    if i < |s| && IsDigit(s[i]) {
      DigitsEndIsMaximalRun(s, i + 1);
      assert s[i..DigitsEnd(s, i)] == [s[i]] + s[i + 1..DigitsEnd(s, i + 1)];
    }
  }

  /** `tag` followed by at least one digit, the digits taken greedily. */
  function TagEnd(s: string, i: nat, tag: string): (e: nat)
    requires i <= |s|
    ensures i <= e <= |s|
  {
    if HasAt(s, tag, i) && DigitsEnd(s, i + |tag|) > i + |tag| then DigitsEnd(s, i + |tag|) else i
  }

  /** `Z\d+\.\d+` at i. The first digit run is maximal, so backtracking into it
      cannot put a '.' after it; the second is taken greedily. */
  function ZTokenEnd(s: string, i: nat): (e: nat)
    requires i <= |s|
    ensures i <= e <= |s|
  {
    if i < |s| && s[i] == 'Z' then
      var a := DigitsEnd(s, i + 1);
      if a > i + 1 && a < |s| && s[a] == '.' && DigitsEnd(s, a + 1) > a + 1 then DigitsEnd(s, a + 1) else i
    else i
  }

  /** End of the match of `p` that starts exactly at i, or i when there is none.
      None of these patterns matches the empty string (str_replace ignores an
      empty search string). */
  function MatchEnd(p: Pattern, s: string, i: nat): (e: nat)
    requires i <= |s|
    ensures i <= e <= |s|
  {
    match p
    case Literal(t) => if |t| > 0 && HasAt(s, t, i) then i + |t| else i
    case CountTag => TagEnd(s, i, COUNT_TAG)
    case LayerTag => TagEnd(s, i, LAYER_TAG)
    case DigitRun => DigitsEnd(s, i)
    case ZToken => ZTokenEnd(s, i)
  }

  predicate MatchAt(p: Pattern, s: string, i: nat)
    requires i <= |s|
  {
    MatchEnd(p, s, i) > i
  }

  // ----- scanning a line left to right -----

  /** The leftmost position at or after k where a match starts, or |s|. */
  function FirstFrom(p: Pattern, s: string, k: nat): (i: nat)
    requires k <= |s|
    ensures k <= i <= |s|
    ensures i < |s| ==> MatchAt(p, s, i)
    decreases |s| - k
  {
    if k == |s| || MatchAt(p, s, k) then k else FirstFrom(p, s, k + 1)
  }

  /** No match starts in [k, j). */
  predicate NoMatchIn(p: Pattern, s: string, k: nat, j: nat)
    requires k <= j <= |s|
  {
    forall m :: k <= m < j ==> !MatchAt(p, s, m)
  }

  /** Nothing matches before the match FirstFrom reports. */
  lemma {:induction false} FirstFromIsLeftmost(p: Pattern, s: string, k: nat)
    requires k <= |s|
    ensures NoMatchIn(p, s, k, FirstFrom(p, s, k))
    decreases |s| - k
  {
    if k < |s| && !MatchAt(p, s, k) {
      FirstFromIsLeftmost(p, s, k + 1);
    }
  }

  /** Replacement of every match from position k on, scanning left to right and
      resuming after each match; the replacement text is not rescanned. */
  function ReplaceFrom(p: Pattern, s: string, r: string, k: nat): string
    requires k <= |s|
    decreases |s| - k
  {
    if k == |s| then []
    else if MatchAt(p, s, k) then r + ReplaceFrom(p, s, r, MatchEnd(p, s, k))
    else [s[k]] + ReplaceFrom(p, s, r, k + 1)
  }

  lemma ConsSlice(s: string, k: nat, j: nat, rest: string)
    requires k < j <= |s|
    ensures [s[k]] + (s[k + 1..j] + rest) == s[k..j] + rest
  {
    assert s[k..j] == [s[k]] + s[k + 1..j];
  }

  /** A position where nothing matches is copied unchanged. */
  lemma {:induction false} ReplaceCopies(p: Pattern, s: string, r: string, k: nat)
    requires k < |s| && !MatchAt(p, s, k)
    ensures ReplaceFrom(p, s, r, k) == [s[k]] + ReplaceFrom(p, s, r, k + 1)
  {
  }

  /** Positions where nothing matches are copied unchanged. */
  lemma {:induction false} ReplaceSkip(p: Pattern, s: string, r: string, k: nat, j: nat)
    requires k <= j <= |s|
    requires NoMatchIn(p, s, k, j)
    ensures ReplaceFrom(p, s, r, k) == s[k..j] + ReplaceFrom(p, s, r, j)
    decreases j - k
  {
    if k < j {
      var rest := ReplaceFrom(p, s, r, j);
      ReplaceCopies(p, s, r, k);
      ReplaceSkip(p, s, r, k + 1, j);
      ConsSlice(s, k, j, rest);
    } else {
      assert s[k..j] == [];
    }
  }

  // ----- preg_match, preg_replace and str_replace -----

  /** The leftmost match of `p` in s, or |s| when there is none. */
  function FirstMatch(p: Pattern, s: string): (i: nat)
    ensures i <= |s|
    ensures i < |s| ==> MatchAt(p, s, i)
  {
    FirstFrom(p, s, 0)
  }

  /** preg_match: the pattern occurs somewhere in the line. */
  predicate Matches(p: Pattern, s: string) {
    FirstMatch(p, s) < |s|
  }

  /** Where `p` occurs nowhere, Matches is false, and conversely. */
  lemma {:induction false} MatchesIff(p: Pattern, s: string)
    ensures Matches(p, s) <==> exists i :: 0 <= i < |s| && MatchAt(p, s, i)
  {
    FirstFromIsLeftmost(p, s, 0);
  }

  /** preg_replace / str_replace of every occurrence of `p` in s by r. */
  function ReplaceAll(p: Pattern, s: string, r: string): string {
    ReplaceFrom(p, s, r, 0)
  }

  /** A line in which the pattern does not occur is left as it is. */
  lemma {:induction false} ReplaceAllNoMatch(p: Pattern, s: string, r: string)
    requires !Matches(p, s)
    ensures ReplaceAll(p, s, r) == s
  {
    FirstFromIsLeftmost(p, s, 0);
    ReplaceSkip(p, s, r, 0, |s|);
    assert s[0..|s|] == s;
  }

  /** The first occurrence is replaced, the text before it kept, and the scan
      resumes right after it. */
  lemma {:induction false} ReplaceAllFirst(p: Pattern, s: string, r: string)
    requires Matches(p, s)
    ensures var i := FirstMatch(p, s);
      ReplaceAll(p, s, r) == s[..i] + r + ReplaceFrom(p, s, r, MatchEnd(p, s, i))
  {
    var i := FirstMatch(p, s);
    FirstFromIsLeftmost(p, s, 0);
    ReplaceSkip(p, s, r, 0, i);
    assert s[0..i] == s[..i];
  }

  // ----- the analyzer's pattern G0.*Z(\d+\.\d+) -----

  /** Where `G0.*Z(\d+\.\d+)` matches: "G0" at g, the captured Z token at z,
      and between them only characters `.` accepts (anything but a newline). */
  datatype Capture = Capture(g0: nat, z: nat)

  predicate NoNewline(s: string, a: nat, b: nat)
    requires a <= b <= |s|
  {
    forall m :: a <= m < b ==> s[m] != '\n'
  }

  predicate G0ZAt(s: string, g: nat, z: nat) {
    HasAt(s, "G0", g) && g + 2 <= z < |s| && MatchAt(ZToken, s, z) && NoNewline(s, g + 2, z)
  }

  /** The last Z token at or after k reachable from `from` without crossing a
      newline (the greedy `.*` backtracks from the far end); `best` is the last
      one seen before k. */
  function LastZToken(s: string, from: nat, k: nat, best: Option<nat>): (r: Option<nat>)
    requires k <= |s|
    decreases |s| - k
  {
    if k == |s| || s[k] == '\n' then best
    else LastZToken(s, from, k + 1, if MatchAt(ZToken, s, k) then Some(k) else best)
  }

  lemma {:induction false} LastZTokenIsLast(s: string, from: nat, k: nat, best: Option<nat>)
    requires from <= k <= |s|
    requires NoNewline(s, from, k)
    requires best.Some? ==> from <= best.value < k && MatchAt(ZToken, s, best.value)
    requires forall m :: from <= m < k && MatchAt(ZToken, s, m) ==> best.Some? && m <= best.value
    ensures var r := LastZToken(s, from, k, best);
      r.Some? ==> from <= r.value < |s| && MatchAt(ZToken, s, r.value) && NoNewline(s, from, r.value)
    ensures var r := LastZToken(s, from, k, best);
      forall m :: from <= m < |s| && MatchAt(ZToken, s, m) && NoNewline(s, from, m) ==> r.Some? && m <= r.value
    decreases |s| - k
  {
    if k < |s| && s[k] != '\n' {
      LastZTokenIsLast(s, from, k + 1, if MatchAt(ZToken, s, k) then Some(k) else best);
    } else if k < |s| {
      // a token after the newline would need the newline inside the `.*`
      forall m | k <= m < |s|
        ensures !(MatchAt(ZToken, s, m) && NoNewline(s, from, m))
      {
        if m > k {
          assert s[k] == '\n';
        }
      }
    }
  }

  /** The match PCRE reports, searching from g: the leftmost "G0" that some
      Z token follows on the line, and for it the last such token. */
  function FirstG0Z(s: string, g: nat): (r: Option<Capture>)
    requires g <= |s|
    decreases |s| - g
  {
    if g == |s| then None
    else if HasAt(s, "G0", g) then
      match LastZToken(s, g + 2, g + 2, None)
      case Some(z) => Some(Capture(g, z))
      case None => FirstG0Z(s, g + 1)
    else FirstG0Z(s, g + 1)
  }

  lemma {:induction false} FirstG0ZIsLeftmostGreedy(s: string, g: nat)
    requires g <= |s|
    ensures var r := FirstG0Z(s, g);
      r.Some? ==> g <= r.value.g0 && G0ZAt(s, r.value.g0, r.value.z)
    ensures var r := FirstG0Z(s, g);
      r.Some? ==> forall z: nat :: G0ZAt(s, r.value.g0, z) ==> z <= r.value.z
    ensures var r := FirstG0Z(s, g);
      r.Some? ==> forall g': nat, z: nat :: g <= g' < r.value.g0 ==> !G0ZAt(s, g', z)
    ensures var r := FirstG0Z(s, g);
      r.None? ==> forall g': nat, z: nat :: g <= g' ==> !G0ZAt(s, g', z)
    decreases |s| - g
  {
    if g < |s| {
      if HasAt(s, "G0", g) {
        LastZTokenIsLast(s, g + 2, g + 2, None);
      }
      FirstG0ZIsLeftmostGreedy(s, g + 1);
    }
  }

  /** What preg_match('/G0.*Z(\d+\.\d+)/') finds in a line. */
  function G0ZCapture(s: string): Option<Capture> {
    FirstG0Z(s, 0)
  }

  /** The capture is the leftmost "G0" followed on its line by a Z token, with
      the last such token; None exactly when the line has no such match. */
  lemma {:induction false} G0ZCaptureIsLeftmostGreedy(s: string)
    ensures var r := G0ZCapture(s);
      r.Some? ==> G0ZAt(s, r.value.g0, r.value.z)
    ensures var r := G0ZCapture(s);
      r.Some? ==> forall z: nat :: G0ZAt(s, r.value.g0, z) ==> z <= r.value.z
    ensures var r := G0ZCapture(s);
      r.Some? ==> forall g': nat, z: nat :: g' < r.value.g0 ==> !G0ZAt(s, g', z)
    ensures var r := G0ZCapture(s);
      r.None? ==> forall g': nat, z: nat :: !G0ZAt(s, g', z)
  {
    FirstG0ZIsLeftmostGreedy(s, 0);
  }

  /** Value of the Z token at z, as floatval reads its digits (exactly). */
  function TokenValue(s: string, z: nat): (v: real)
    requires z <= |s| && MatchAt(ZToken, s, z)
    ensures v >= 0.0
  {
    var a := DigitsEnd(s, z + 1);
    DigitsEndIsMaximalRun(s, z + 1);
    var b := DigitsEnd(s, a + 1);
    DigitsEndIsMaximalRun(s, a + 1);
    ParseNat(s[z + 1..a]) as real + ParseNat(s[a + 1..b]) as real / Pow10(b - a - 1) as real
  }

  /** The token Z<int>.<frac> reads as the decimal number it spells: its digits,
      with the point removed, read as an integer and divided by 10^|frac|. */
  lemma {:induction false} TokenValueIsDecimal(s: string, z: nat)
    requires z <= |s| && MatchAt(ZToken, s, z)
    ensures var a := DigitsEnd(s, z + 1);
      var b := DigitsEnd(s, a + 1);
      a < b && AllDigits(s[z + 1..a] + s[a + 1..b]) &&
      TokenValue(s, z) == ParseNat(s[z + 1..a] + s[a + 1..b]) as real / Pow10(b - a - 1) as real
  {
    var a := DigitsEnd(s, z + 1);
    assert MatchEnd(ZToken, s, z) == ZTokenEnd(s, z) > z;
    assert a < |s| && s[a] == '.';
    var b := DigitsEnd(s, a + 1);
    assert a + 1 < b;
    DigitsEndIsMaximalRun(s, z + 1);
    DigitsEndIsMaximalRun(s, a + 1);
    var x, y := s[z + 1..a], s[a + 1..b];
    assert |y| == b - a - 1;
    assert TokenValue(s, z) == ParseNat(x) as real + ParseNat(y) as real / Pow10(|y|) as real;
    DecimalReading(x, y);
  }

  /** The height a line's `G0.*Z(\d+\.\d+)` match captures. */
  function CapturedHeight(s: string): real
    requires G0ZCapture(s).Some?
  {
    G0ZCaptureIsLeftmostGreedy(s);
    TokenValue(s, G0ZCapture(s).value.z)
  }

  /** The integer `;LAYER_COUNT:(\d+)` captures: the digits of the leftmost match. */
  function CountValue(s: string): nat
    requires Matches(CountTag, s)
  {
    var i := FirstMatch(CountTag, s);
    DigitsEndIsMaximalRun(s, i + |COUNT_TAG|);
    ParseNat(s[i + |COUNT_TAG|..MatchEnd(CountTag, s, i)])
  }
}
