/** `collections.Counter(xs).most_common()[:k]`: the distinct elements of `xs` ranked
    by how often they occur, ties kept in the order the counter first saw them. */
module Ranking {

  /** How many times `x` occurs in `xs`. */
  function Occurrences<T(==)>(xs: seq<T>, x: T): (n: nat)
    ensures n <= |xs|
  {
    if |xs| == 0 then 0
    else Occurrences(xs[..|xs| - 1], x) + (if xs[|xs| - 1] == x then 1 else 0)
  }

  /** The position of the first occurrence of `x`, or `|xs|` when it does not occur. */
  function FirstIndex<T(==)>(xs: seq<T>, x: T): (i: nat)
    ensures i <= |xs|
    ensures i < |xs| ==> xs[i] == x
  {
    if |xs| == 0 then 0
    else if xs[0] == x then 0
    else 1 + FirstIndex(xs[1..], x)
  }

  /** Nothing before the first index is `x`, so `x` occurs iff the index is in range. */
  lemma {:induction false} FirstIndexIsFirst<T>(xs: seq<T>, x: T)
    ensures FirstIndex(xs, x) < |xs| <==> x in xs
    ensures forall j :: 0 <= j < FirstIndex(xs, x) ==> xs[j] != x
  {
    if |xs| > 0 && xs[0] != x {
      FirstIndexIsFirst(xs[1..], x);
      assert forall j :: 1 <= j < |xs| ==> xs[j] == xs[1..][j - 1];
    }
  }

  /** A prefix that already holds `x` agrees with the whole sequence on where `x` is
      first seen. */
  lemma FirstIndexOfPrefix<T>(xs: seq<T>, m: nat, x: T)
    requires m <= |xs| && x in xs[..m]
    ensures FirstIndex(xs, x) == FirstIndex(xs[..m], x)
  {
    FirstIndexIsFirst(xs[..m], x);
    FirstIndexIsFirst(xs, x);
    var i := FirstIndex(xs[..m], x);
    assert xs[i] == x;
    assert forall j :: 0 <= j < i ==> xs[j] == xs[..m][j];
  }

  /** The distinct elements of `xs` in the order a `Counter` inserts them. */
  function Distinct<T(==)>(xs: seq<T>): (d: seq<T>)
    ensures forall i :: 0 <= i < |d| ==> d[i] in xs
    ensures forall i :: 0 <= i < |xs| ==> xs[i] in d
    ensures forall i, j :: 0 <= i < j < |d| ==> d[i] != d[j]
  {
    if |xs| == 0 then []
    else
      var p := Distinct(xs[..|xs| - 1]);
      assert xs == xs[..|xs| - 1] + [xs[|xs| - 1]];
      if xs[|xs| - 1] in p then p else p + [xs[|xs| - 1]]
  }

  /** Along `cs`, elements are first seen strictly later in `xs`. */
  predicate FirstSeenOrder<T(==)>(cs: seq<T>, xs: seq<T>) {
    forall i, j :: 0 <= i < j < |cs| ==> FirstIndex(xs, cs[i]) < FirstIndex(xs, cs[j])
  }

  /** Elements already seen in the first `m` positions keep their first index when
      the sequence grows, and that index is below `m`. */
  lemma PrefixFirstIndices<T>(xs: seq<T>, m: nat, p: seq<T>)
    requires m <= |xs| && p == Distinct(xs[..m])
    ensures forall i :: 0 <= i < |p| ==> FirstIndex(xs, p[i]) == FirstIndex(xs[..m], p[i]) < m
  {
    forall i | 0 <= i < |p|
      ensures FirstIndex(xs, p[i]) == FirstIndex(xs[..m], p[i]) < m
    {
      FirstIndexOfPrefix(xs, m, p[i]);
      FirstIndexIsFirst(xs[..m], p[i]);
    }
  }

  /** An element absent from the first `m` positions is first seen at `m`. */
  lemma FirstIndexOfNew<T>(xs: seq<T>, m: nat)
    requires m < |xs| && xs[m] !in xs[..m]
    ensures FirstIndex(xs, xs[m]) == m
  {
    FirstIndexIsFirst(xs, xs[m]);
    assert forall j :: 0 <= j < m ==> xs[j] == xs[..m][j];
  }

  /** The counter's insertion order is the order of first occurrence. */
  lemma {:induction false} DistinctInFirstSeenOrder<T>(xs: seq<T>)
    ensures FirstSeenOrder(Distinct(xs), xs)
  {
    if |xs| > 0 {
      var m := |xs| - 1;
      var p := Distinct(xs[..m]);
      DistinctInFirstSeenOrder(xs[..m]);
      PrefixFirstIndices(xs, m, p);
      assert FirstSeenOrder(p, xs);
      if xs[m] !in p {
        assert xs[m] !in xs[..m];
        FirstIndexOfNew(xs, m);
        assert FirstSeenOrder(p + [xs[m]], xs);
      }
    }
  }

  /** `a` ranks before `b`: it occurs more often, or as often and was seen first. */
  predicate Precedes<T(==)>(xs: seq<T>, a: T, b: T) {
    || Occurrences(xs, a) > Occurrences(xs, b)
    || (Occurrences(xs, a) == Occurrences(xs, b) && FirstIndex(xs, a) < FirstIndex(xs, b))
  }

  /** The position of the first element of `cs` with the highest count. */
  function BestIndex<T(==)>(cs: seq<T>, xs: seq<T>): (b: nat)
    requires |cs| > 0
    ensures b < |cs|
    ensures forall j :: 0 <= j < |cs| ==> Occurrences(xs, cs[j]) <= Occurrences(xs, cs[b])
    ensures forall j :: 0 <= j < b ==> Occurrences(xs, cs[j]) < Occurrences(xs, cs[b])
  {
    if |cs| == 1 then 0
    else
      var b := BestIndex(cs[..|cs| - 1], xs);
      assert forall j :: 0 <= j < |cs| - 1 ==> cs[..|cs| - 1][j] == cs[j];
      if Occurrences(xs, cs[|cs| - 1]) > Occurrences(xs, cs[b]) then |cs| - 1 else b
  }

  /** Removing position `b` from `cs`. */
  function Without<T>(cs: seq<T>, b: nat): (rest: seq<T>)
    requires b < |cs|
    ensures |rest| == |cs| - 1
    ensures forall j :: 0 <= j < |rest| ==> rest[j] == if j < b then cs[j] else cs[j + 1]
  {
    cs[..b] + cs[b + 1..]
  }

  /** Removing a candidate keeps the others in first-seen order. */
  lemma WithoutKeepsOrder<T>(cs: seq<T>, xs: seq<T>, b: nat)
    requires FirstSeenOrder(cs, xs) && b < |cs|
    ensures FirstSeenOrder(Without(cs, b), xs)
  {
  }

  /** Removing one candidate keeps every other one. */
  lemma WithoutKeepsOthers<T>(cs: seq<T>, b: nat, j: nat)
    requires b < |cs| && j < |cs| && j != b
    ensures cs[j] in Without(cs, b)
  {
    var rest := Without(cs, b);
    if j < b { assert rest[j] == cs[j]; } else { assert rest[j - 1] == cs[j]; }
  }

  /** The best candidate ranks before every other candidate. */
  lemma BestPrecedesOthers<T>(cs: seq<T>, xs: seq<T>, j: nat)
    requires FirstSeenOrder(cs, xs) && |cs| > 0
    requires j < |cs| && j != BestIndex(cs, xs)
    ensures Precedes(xs, cs[BestIndex(cs, xs)], cs[j])
  {
    var b := BestIndex(cs, xs);
    if j > b {
      assert FirstIndex(xs, cs[b]) < FirstIndex(xs, cs[j]);
    }
  }

  /** Repeatedly take the best remaining candidate, `k` times at most. */
  function SelectTop<T(==)>(cs: seq<T>, xs: seq<T>, k: nat): (top: seq<T>)
    ensures |top| == if k < |cs| then k else |cs|
    decreases k
  {
    if k == 0 || |cs| == 0 then []
    else
      var b := BestIndex(cs, xs);
      var tail := SelectTop(Without(cs, b), xs, k - 1);
      [cs[b]] + tail
  }

  /** `c` ranks before every element of `rest`. */
  predicate PrecedesAll<T(==)>(xs: seq<T>, c: T, rest: seq<T>) {
    forall j :: 0 <= j < |rest| ==> Precedes(xs, c, rest[j])
  }

  /** Every element of `ys` is an element of `zs`. */
  predicate AllIn<T(==)>(ys: seq<T>, zs: seq<T>) {
    forall i :: 0 <= i < |ys| ==> ys[i] in zs
  }

  /** Everything selected is a candidate. */
  lemma {:induction false} SelectTopWithin<T>(cs: seq<T>, xs: seq<T>, k: nat)
    ensures AllIn(SelectTop(cs, xs, k), cs)
    decreases k
  {
    if k > 0 && |cs| > 0 {
      var b := BestIndex(cs, xs);
      var rest := Without(cs, b);
      var tail := SelectTop(rest, xs, k - 1);
      SelectTopWithin(rest, xs, k - 1);
      forall i | 0 <= i < |tail|
        ensures tail[i] in cs
      {
        var r :| 0 <= r < |rest| && rest[r] == tail[i];
        assert rest[r] == if r < b then cs[r] else cs[r + 1];
      }
      assert SelectTop(cs, xs, k) == [cs[b]] + tail;
    }
  }

  /** The best candidate ranks before everything left after removing it. */
  lemma BestPrecedesRest<T>(cs: seq<T>, xs: seq<T>)
    requires FirstSeenOrder(cs, xs) && |cs| > 0
    ensures PrecedesAll(xs, cs[BestIndex(cs, xs)], Without(cs, BestIndex(cs, xs)))
  {
    var b := BestIndex(cs, xs);
    var rest := Without(cs, b);
    forall j | 0 <= j < |rest|
      ensures Precedes(xs, cs[b], rest[j])
    {
      var j' := if j < b then j else j + 1;
      BestPrecedesOthers(cs, xs, j');
    }
  }

  /** Each element of `top` ranks before every later one. */
  predicate Ranked<T(==)>(xs: seq<T>, top: seq<T>) {
    forall i, j :: 0 <= i < j < |top| ==> Precedes(xs, top[i], top[j])
  }

  /** Every element of `cs` missing from `top` ranks after all of `top`. */
  predicate KeepsBest<T(==)>(xs: seq<T>, top: seq<T>, cs: seq<T>) {
    forall j, i :: 0 <= j < |cs| && cs[j] !in top && 0 <= i < |top| ==> Precedes(xs, top[i], cs[j])
  }

  /** Putting in front an element that ranks before all of a ranked sequence keeps
      it ranked. */
  lemma RankedCons<T>(xs: seq<T>, c: T, tail: seq<T>, rest: seq<T>)
    requires Ranked(xs, tail) && AllIn(tail, rest) && PrecedesAll(xs, c, rest)
    ensures Ranked(xs, [c] + tail)
  {
    var top := [c] + tail;
    forall i, j | 0 <= i < j < |top|
      ensures Precedes(xs, top[i], top[j])
    {
      assert top[j] == tail[j - 1];
      if i == 0 {
        var r :| 0 <= r < |rest| && rest[r] == tail[j - 1];
      } else {
        assert top[i] == tail[i - 1];
      }
    }
  }

  /** The selection is ranked. */
  lemma {:induction false} SelectTopSorted<T>(cs: seq<T>, xs: seq<T>, k: nat)
    requires FirstSeenOrder(cs, xs)
    ensures Ranked(xs, SelectTop(cs, xs, k))
    decreases k
  {
    if k > 0 && |cs| > 0 {
      var b := BestIndex(cs, xs);
      var rest := Without(cs, b);
      WithoutKeepsOrder(cs, xs, b);
      SelectTopSorted(rest, xs, k - 1);
      assert Ranked(xs, SelectTop(rest, xs, k - 1));
      BestPrecedesRest(cs, xs);
      assert PrecedesAll(xs, cs[b], rest);
      SelectTopWithin(rest, xs, k - 1);
      RankedCons(xs, cs[b], SelectTop(rest, xs, k - 1), rest);
      assert SelectTop(cs, xs, k) == [cs[b]] + SelectTop(rest, xs, k - 1);
    }
  }

  /** If `c` ranks before every candidate left after removing it, and the selection
      from those candidates keeps the best of them, then `c` followed by that
      selection keeps the best of all candidates. */
  lemma KeepsBestCons<T>(xs: seq<T>, cs: seq<T>, b: nat, tail: seq<T>)
    requires b < |cs|
    requires KeepsBest(xs, tail, Without(cs, b))
    requires PrecedesAll(xs, cs[b], Without(cs, b))
    ensures KeepsBest(xs, [cs[b]] + tail, cs)
  {
    var rest := Without(cs, b);
    var top := [cs[b]] + tail;
    forall j, i | 0 <= j < |cs| && cs[j] !in top && 0 <= i < |top|
      ensures Precedes(xs, top[i], cs[j])
    {
      assert cs[j] != cs[b];
      WithoutKeepsOthers(cs, b, j);
      var r :| 0 <= r < |rest| && rest[r] == cs[j];
      if i > 0 {
        assert top[i] == tail[i - 1];
        assert rest[r] !in tail;
      }
    }
  }

  /** One step of the selection: the best candidate, then the selection from the
      others. */
  lemma SelectTopStep<T>(cs: seq<T>, xs: seq<T>, k: nat)
    requires k > 0 && |cs| > 0
    ensures SelectTop(cs, xs, k) == [cs[BestIndex(cs, xs)]] + SelectTop(Without(cs, BestIndex(cs, xs)), xs, k - 1)
  {
  }

  /** One step of completeness: the best candidate in front of a selection that keeps
      the best of the others keeps the best of all candidates. */
  lemma CompleteStep<T>(cs: seq<T>, xs: seq<T>, b: nat, tail: seq<T>)
    requires FirstSeenOrder(cs, xs) && |cs| > 0 && b == BestIndex(cs, xs)
    requires KeepsBest(xs, tail, Without(cs, b))
    ensures KeepsBest(xs, [cs[b]] + tail, cs)
  {
    BestPrecedesRest(cs, xs);
    KeepsBestCons(xs, cs, b, tail);
  }

  /** Every candidate the selection `top` leaves out ranks after all that it keeps. */
  lemma {:induction false} SelectTopComplete<T>(cs: seq<T>, xs: seq<T>, k: nat, top: seq<T>)
    requires FirstSeenOrder(cs, xs)
    requires top == SelectTop(cs, xs, k)
    ensures KeepsBest(xs, top, cs)
    decreases k
  {
    if k > 0 && |cs| > 0 {
      var b := BestIndex(cs, xs);
      var tail := SelectTop(Without(cs, b), xs, k - 1);
      WithoutKeepsOrder(cs, xs, b);
      SelectTopComplete(Without(cs, b), xs, k - 1, tail);
      CompleteStep(cs, xs, b, tail);
      SelectTopStep(cs, xs, k);
    }
  }

  /** What `Ranked` and `KeepsBest` say about the selection from the distinct
      elements, restated in terms of counts and first positions. */
  lemma {:induction false} SelectionFromDistinct<T>(xs: seq<T>, k: nat, top: seq<T>)
    requires top == SelectTop(Distinct(xs), xs, k)
    ensures forall i :: 0 <= i < |top| ==> top[i] in xs
    ensures forall i, j :: 0 <= i < j < |top| ==> top[i] != top[j]
    ensures forall i, j :: 0 <= i < j < |top| ==> Precedes(xs, top[i], top[j])
    ensures forall j, i :: 0 <= j < |xs| && xs[j] !in top && 0 <= i < |top| ==> Precedes(xs, top[i], xs[j])
  {
    var d := Distinct(xs);
    DistinctInFirstSeenOrder(xs);
    SelectTopSorted(d, xs, k);
    SelectTopComplete(d, xs, k, top);
    SelectTopWithin(d, xs, k);
    assert Ranked(xs, top);
    assert KeepsBest(xs, top, d);
    assert AllIn(top, d);
    forall i | 0 <= i < |top|
      ensures top[i] in xs
    {
      var r :| 0 <= r < |d| && d[r] == top[i];
    }
    forall j, i | 0 <= j < |xs| && xs[j] !in top && 0 <= i < |top|
      ensures Precedes(xs, top[i], xs[j])
    {
      var r :| 0 <= r < |d| && d[r] == xs[j];
      assert Precedes(xs, top[i], d[r]);
    }
  }

  /** `Counter(xs).most_common()[:k]`: at most `k` distinct elements of `xs`, ranked
      by count with ties in first-seen order, and every element left out ranks after
      every one that was kept, by the same order. */
  function MostCommon<T(==)>(xs: seq<T>, k: nat): (top: seq<T>)
    ensures |top| == if k < |Distinct(xs)| then k else |Distinct(xs)|
    ensures forall i :: 0 <= i < |top| ==> top[i] in xs
    ensures forall i, j :: 0 <= i < j < |top| ==> top[i] != top[j]
    ensures forall i, j :: 0 <= i < j < |top| ==>
      Occurrences(xs, top[i]) > Occurrences(xs, top[j])
      || (Occurrences(xs, top[i]) == Occurrences(xs, top[j]) && FirstIndex(xs, top[i]) < FirstIndex(xs, top[j]))
    ensures forall j, i :: 0 <= j < |xs| && xs[j] !in top && 0 <= i < |top| ==>
      Occurrences(xs, top[i]) > Occurrences(xs, xs[j])
      || (Occurrences(xs, top[i]) == Occurrences(xs, xs[j]) && FirstIndex(xs, top[i]) < FirstIndex(xs, xs[j]))
  {
    var top := SelectTop(Distinct(xs), xs, k);
    SelectionFromDistinct(xs, k, top);
    top
  }

  /** A ranking of a positive length has an element exactly when the input does. */
  lemma MostCommonNonEmpty<T>(xs: seq<T>, k: nat)
    ensures |MostCommon(xs, k)| > 0 <==> |xs| > 0 && k > 0
  {
    if |xs| > 0 {
      assert xs[0] in Distinct(xs);
    }
  }
}
