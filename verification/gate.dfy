/** Two facts about line streams that hold whatever the lines say: a flag that
    each line may clear and then set, and a count of marked lines. The rewriter
    applies them to its emission flag and to its two counters. */
module Gate {
  /** The flag after line i. It is on before the first line; line i first
      applies its clear signal, then its set signal. */
  function Flag(clears: seq<bool>, sets: seq<bool>, i: nat): bool
    requires |clears| == |sets| && i < |sets|
  {
    var before := i == 0 || Flag(clears, sets, i - 1);
    if sets[i] then true else if clears[i] then false else before
  }

  /** Every clear up to i is followed, at or after it and up to i, by a set. */
  predicate Open(clears: seq<bool>, sets: seq<bool>, i: nat)
    requires |clears| == |sets| && i < |sets|
  {
    forall j :: 0 <= j <= i && clears[j] ==> exists m :: j <= m <= i && sets[m]
  }

  /** The flag, stated without the recursion. */
  lemma {:induction false} FlagIff(clears: seq<bool>, sets: seq<bool>, i: nat)
    requires |clears| == |sets| && i < |sets|
    ensures Flag(clears, sets, i) <==> Open(clears, sets, i)
  {
    if i > 0 {
      FlagIff(clears, sets, i - 1);
    }
    if sets[i] {
      forall j | 0 <= j <= i && clears[j]
        ensures exists m :: j <= m <= i && sets[m]
      {
        assert sets[i];
      }
    } else if clears[i] {
      assert !exists m :: i <= m <= i && sets[m];
    } else if i > 0 {
      if Open(clears, sets, i - 1) {
        forall j | 0 <= j <= i && clears[j]
          ensures exists m :: j <= m <= i && sets[m]
        {
          var m :| j <= m <= i - 1 && sets[m];
        }
      } else {
        var j :| 0 <= j <= i - 1 && clears[j] && !exists m :: j <= m <= i - 1 && sets[m];
        assert !exists m :: j <= m <= i && sets[m];
      }
    }
  }

  /** Number of marked entries among the first n. */
  function CountTrue(marks: seq<bool>, n: nat): (c: nat)
    requires n <= |marks|
    ensures c <= n
  {
    if n == 0 then 0 else CountTrue(marks, n - 1) + if marks[n - 1] then 1 else 0
  }

  /** Unmarked entries leave the count where it was. */
  lemma {:induction false} CountTrueUnchanged(marks: seq<bool>, a: nat, b: nat)
    requires a <= b <= |marks|
    requires forall j :: a <= j < b ==> !marks[j]
    ensures CountTrue(marks, b) == CountTrue(marks, a)
    decreases b - a
  {
    if a < b {
      CountTrueUnchanged(marks, a, b - 1);
    }
  }

  /** Between two consecutive marked entries the count rises by exactly one. */
  lemma {:induction false} CountTrueNext(marks: seq<bool>, i: nat, i': nat)
    requires i < i' <= |marks| && marks[i]
    requires forall j :: i < j < i' ==> !marks[j]
    ensures CountTrue(marks, i') == CountTrue(marks, i) + 1
  {
    CountTrueUnchanged(marks, i + 1, i');
  }

  /** When every entry is marked, the count is the number of entries. */
  lemma {:induction false} CountTrueAll(marks: seq<bool>, n: nat)
    requires n <= |marks|
    requires forall j :: 0 <= j < n ==> marks[j]
    ensures CountTrue(marks, n) == n
  {
    if n > 0 {
      CountTrueAll(marks, n - 1);
    }
  }

  /** The items among the first n whose mark is set, in their original order. */
  function Kept<T>(marks: seq<bool>, items: seq<T>, n: nat): (r: seq<T>)
    requires |marks| == |items| && n <= |items|
    ensures |r| == CountTrue(marks, n)
  {
    if n == 0 then []
    else Kept(marks, items, n - 1) + if marks[n - 1] then [items[n - 1]] else []
  }

  /** A marked item i is kept, at the position given by the marked items before it. */
  lemma {:induction false} KeptInOrder<T>(marks: seq<bool>, items: seq<T>, i: nat, n: nat)
    requires |marks| == |items| && i < n <= |items| && marks[i]
    ensures CountTrue(marks, i) < |Kept(marks, items, n)|
    ensures Kept(marks, items, n)[CountTrue(marks, i)] == items[i]
  {
    if n == i + 1 {
      assert Kept(marks, items, n) == Kept(marks, items, i) + [items[i]];
    } else {
      KeptInOrder(marks, items, i, n - 1);
      var before := Kept(marks, items, n - 1);
      assert Kept(marks, items, n)[..|before|] == before;
    }
  }

  /** The values f(0), ..., f(n), in order. */
  ghost function Tabulate<T>(f: nat --> T, n: nat): (r: seq<T>)
    requires forall k: nat :: k <= n ==> f.requires(k)
    ensures |r| == n + 1
  {
    if n == 0 then [f(0)] else Tabulate(f, n - 1) + [f(n)]
  }

  lemma {:induction false} TabulateIndex<T>(f: nat --> T, n: nat, k: nat)
    requires forall k: nat :: k <= n ==> f.requires(k)
    requires k <= n
    ensures Tabulate(f, n)[k] == f(k)
  {
    if k < n {
      TabulateIndex(f, n - 1, k);
    }
  }

  /** A step g that takes f(k) to f(k + 1) takes entry k of the table to entry k + 1. */
  lemma {:induction false} TabulateStep<T>(f: nat --> T, g: T -> T, n: nat, k: nat)
    requires forall k: nat :: k <= n ==> f.requires(k)
    requires k < n && g(f(k)) == f(k + 1)
    ensures g(Tabulate(f, n)[k]) == Tabulate(f, n)[k + 1]
  {
    TabulateIndex(f, n, k);
    TabulateIndex(f, n, k + 1);
  }
}
