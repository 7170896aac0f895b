/** Greedy grouping of weighted items into consecutive ranges, the scheme both chunkers share. */
module Greedy {

  function Sum(w: seq<nat>, lo: nat, hi: nat): nat
    requires lo <= hi <= |w|
    decreases hi - lo
  {
    if lo == hi then 0 else Sum(w, lo, hi - 1) + w[hi - 1]
  }

  lemma {:induction false} SumSplits(w: seq<nat>, lo: nat, mid: nat, hi: nat)
    requires lo <= mid <= hi <= |w|
    ensures Sum(w, lo, hi) == Sum(w, lo, mid) + Sum(w, mid, hi)
    decreases hi - mid
  {
    if mid < hi { SumSplits(w, lo, mid, hi - 1); }
  }

  lemma SumOfPart(w: seq<nat>, lo: nat, hi: nat, lo': nat, hi': nat)
    requires lo <= lo' <= hi' <= hi <= |w|
    ensures Sum(w, lo', hi') <= Sum(w, lo, hi)
  {
  }

  /** A range is within the budget, or it is one item that nothing could split. */
  predicate Fits(w: seq<nat>, budget: nat, lo: nat, hi: nat)
    requires lo <= hi <= |w|
  {
    lo < hi && (hi == lo + 1 || Sum(w, lo, hi) <= budget)
  }

  /** `c` cuts the items from `start` on into consecutive, non-empty, admissible ranges. */
  ghost predicate CutsFrom(w: seq<nat>, budget: nat, start: nat, c: seq<nat>) {
    && |c| >= 1 && c[0] == start && c[|c| - 1] == |w|
    && (forall k | 0 <= k < |c| :: c[k] <= |w|)
    && (forall k | 0 <= k < |c| - 1 :: c[k] <= c[k + 1] && Fits(w, budget, c[k], c[k + 1]))
  }

  ghost predicate IsPartition(w: seq<nat>, budget: nat, c: seq<nat>) {
    CutsFrom(w, budget, 0, c)
  }

  /** Range k took everything it could: it ends with the items, or one more item would not fit. */
  ghost predicate Full(w: seq<nat>, budget: nat, c: seq<nat>, k: nat)
    requires k + 1 < |c| && c[k] <= c[k + 1] <= |w|
  {
    c[k + 1] == |w| || !Fits(w, budget, c[k], c[k + 1] + 1)
  }

  ghost predicate GreedyRange(w: seq<nat>, budget: nat, c: seq<nat>, k: nat)
    requires k + 1 < |c|
  {
    c[k] <= c[k + 1] <= |w| && Fits(w, budget, c[k], c[k + 1]) && Full(w, budget, c, k)
  }

  ghost predicate GreedyFrom(w: seq<nat>, budget: nat, start: nat, c: seq<nat>) {
    CutsFrom(w, budget, start, c) && forall k | 0 <= k < |c| - 1 :: GreedyRange(w, budget, c, k)
  }

  ghost predicate IsGreedy(w: seq<nat>, budget: nat, c: seq<nat>) {
    GreedyFrom(w, budget, 0, c)
  }

  /** The furthest end of an admissible range that starts at `lo` and already reaches `hi`. */
  function Reach(w: seq<nat>, budget: nat, lo: nat, hi: nat): (r: nat)
    requires lo < hi <= |w| && Fits(w, budget, lo, hi)
    ensures hi <= r <= |w| && Fits(w, budget, lo, r)
    ensures r == |w| || !Fits(w, budget, lo, r + 1)
    decreases |w| - hi
  {
    if hi < |w| && Sum(w, lo, hi + 1) <= budget then Reach(w, budget, lo, hi + 1) else hi
  }

  lemma GreedyPrepend(w: seq<nat>, budget: nat, start: nat, rest: seq<nat>)
    requires start < |w| && rest != [] && start <= rest[0] <= |w|
    requires GreedyFrom(w, budget, rest[0], rest)
    requires Fits(w, budget, start, rest[0]) && (rest[0] == |w| || !Fits(w, budget, start, rest[0] + 1))
    ensures GreedyFrom(w, budget, start, [start] + rest)
  {
    var c := [start] + rest;
    forall k | 0 <= k < |c| - 1
      ensures GreedyRange(w, budget, c, k)
    {
      if k > 0 {
        assert c[k] == rest[k - 1] && c[k + 1] == rest[k];
        assert GreedyRange(w, budget, rest, k - 1);
      }
    }
  }

  /** A range that is closed: admissible, and no longer so with the next item. */
  ghost predicate Closed(w: seq<nat>, budget: nat, lo: nat, hi: nat) {
    lo < hi < |w| && Fits(w, budget, lo, hi) && !Fits(w, budget, lo, hi + 1)
  }

  /** Closed ranges followed by one that reaches the end are the greedy partition. */
  lemma ClosedRangesAreGreedy(w: seq<nat>, budget: nat, c: seq<nat>)
    requires |c| >= 2 && c[0] == 0 && c[|c| - 1] == |w|
    requires forall k | 0 <= k < |c| - 2 :: Closed(w, budget, c[k], c[k + 1])
    requires c[|c| - 2] < |w| && Fits(w, budget, c[|c| - 2], |w|)
    ensures IsGreedy(w, budget, c)
  {
    forall k | 0 <= k < |c| - 1
      ensures GreedyRange(w, budget, c, k)
    {
      if k < |c| - 2 { assert Closed(w, budget, c[k], c[k + 1]); }
    }
    forall k | 0 <= k < |c| ensures c[k] <= |w| {
      if k < |c| - 2 { assert Closed(w, budget, c[k], c[k + 1]); }
    }
  }

  lemma EmptyIsGreedy(budget: nat)
    ensures IsGreedy([], budget, [0])
  {
  }

  function Cuts(w: seq<nat>, budget: nat, start: nat): (c: seq<nat>)
    requires start <= |w|
    ensures GreedyFrom(w, budget, start, c)
    decreases |w| - start
  {
    if start == |w| then [start]
    else
      var rest := Cuts(w, budget, Reach(w, budget, start, start + 1));
      GreedyPrepend(w, budget, start, rest);
      [start] + rest
  }

  /** Greedy stays ahead: its k-th boundary is never before the k-th boundary of any partition. */
  lemma {:induction false} StaysAhead(w: seq<nat>, budget: nat, g: seq<nat>, d: seq<nat>, k: nat)
    requires IsGreedy(w, budget, g) && IsPartition(w, budget, d)
    requires k < |g| && k < |d|
    ensures d[k] <= g[k]
  {
    if k > 0 {
      StaysAhead(w, budget, g, d, k - 1);
      assert GreedyRange(w, budget, g, k - 1) && Fits(w, budget, d[k - 1], d[k]);
      if g[k] < d[k] {
        SumOfPart(w, d[k - 1], d[k], g[k - 1], g[k] + 1);
        assert false;
      }
    }
  }

  /** Greedy uses the fewest ranges of all partitions. */
  lemma Fewest(w: seq<nat>, budget: nat, g: seq<nat>, d: seq<nat>)
    requires IsGreedy(w, budget, g) && IsPartition(w, budget, d)
    ensures |g| <= |d|
  {
    if |d| < |g| {
      assert Fits(w, budget, g[|d| - 1], g[|d|]);
      StaysAhead(w, budget, g, d, |d| - 1);
    }
  }

  /** There is only one greedy partition. */
  lemma Unique(w: seq<nat>, budget: nat, g: seq<nat>, h: seq<nat>)
    requires IsGreedy(w, budget, g) && IsGreedy(w, budget, h)
    ensures g == h
  {
    Fewest(w, budget, g, h);
    Fewest(w, budget, h, g);
    forall k | 0 <= k < |g| ensures g[k] == h[k] {
      StaysAhead(w, budget, g, h, k);
      StaysAhead(w, budget, h, g, k);
    }
  }
}
