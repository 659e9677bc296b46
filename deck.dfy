/** Ranks, the remaining-count table and sums over a range of ranks. */
module Deck {

  /** A rank is one of the thirteen card values, numbered 1..13. */
  predicate IsRank(r: int) {
    1 <= r <= 13
  }

  /** Every element of xs is a rank. */
  predicate AllRanks(xs: seq<int>) {
    forall i :: 0 <= i < |xs| ==> IsRank(xs[i])
  }

  /** Remaining copies of each rank (the `cardCounter` object, keyed by rank). */
  type Counts = map<int, int>

  /** The table has an entry for every rank. */
  predicate Covers(c: Counts) {
    forall r :: 1 <= r <= 13 ==> r in c
  }

  /** No rank has a negative count. */
  predicate NonNegative(c: Counts)
    requires Covers(c)
  {
    forall r :: 1 <= r <= 13 ==> c[r] >= 0
  }

  /** The thirteen ranks. */
  const Ranks: set<int> := {1, 2, 3, 4, 5, 6, 7, 8, 9, 10, 11, 12, 13}

  /** The table right after `resetCounter`: four copies of every rank per deck. */
  function Full(deckCount: int): Counts {
    map r | r in Ranks :: 4 * deckCount
  }

  /** Sum of c[i] over lo <= i < hi (0 when the range is empty). */
  function Sum(c: Counts, lo: int, hi: int): int
    requires forall i :: lo <= i < hi ==> i in c
    decreases hi - lo
  {
    if hi <= lo then 0 else Sum(c, lo, hi - 1) + c[hi - 1]
  }

  /** Number of cards still counted as remaining, over all thirteen ranks. */
  function Total(c: Counts): int
    requires Covers(c)
  {
    Sum(c, 1, 14)
  }

  /** A sum over a range splits at any point inside it. */
  lemma {:induction false} SumSplit(c: Counts, lo: int, mid: int, hi: int)
    requires lo <= mid <= hi
    requires forall i :: lo <= i < hi ==> i in c
    ensures Sum(c, lo, hi) == Sum(c, lo, mid) + Sum(c, mid, hi)
    decreases hi - lo
  {
    if hi > mid {
      SumSplit(c, lo, mid, hi - 1);
    }
  }

  /** A sum of counts that are all non-negative is non-negative. */
  lemma {:induction false} SumNonNegative(c: Counts, lo: int, hi: int)
    requires forall i :: lo <= i < hi ==> i in c && c[i] >= 0
    ensures Sum(c, lo, hi) >= 0
    decreases hi - lo
  {
    if hi > lo {
      SumNonNegative(c, lo, hi - 1);
    }
  }

  /** Changing one count changes a sum over a range holding it by the difference,
      and leaves a sum over a range not holding it alone. */
  lemma {:induction false} SumUpdate(c: Counts, lo: int, hi: int, k: int, v: int)
    requires forall i :: lo <= i < hi ==> i in c
    ensures Sum(c[k := v], lo, hi) == Sum(c, lo, hi) + (if lo <= k < hi then v - c[k] else 0)
    decreases hi - lo
  {
    if hi > lo {
      SumUpdate(c, lo, hi - 1, k, v);
    }
  }

  /** Setting the count of one rank to v changes the total by v minus its old count. */
  lemma TotalUpdate(c: Counts, k: int, v: int)
    requires Covers(c) && IsRank(k)
    ensures Covers(c[k := v])
    ensures Total(c[k := v]) == Total(c) + v - c[k]
  {
    SumUpdate(c, 1, 14, k, v);
  }

  /** A fresh table holds 4 * deckCount copies of every rank and nothing else. */
  lemma FullAt(deckCount: int)
    ensures Covers(Full(deckCount))
    ensures forall r :: r in Full(deckCount) ==> IsRank(r) && Full(deckCount)[r] == 4 * deckCount
  {
  }

  /** A range in which every count is v sums to v times its length. */
  lemma {:induction false} SumConstant(c: Counts, lo: int, hi: int, v: int)
    requires lo <= hi
    requires forall i :: lo <= i < hi ==> i in c && c[i] == v
    ensures Sum(c, lo, hi) == v * (hi - lo)
    decreases hi - lo
  {
    if hi > lo {
      SumConstant(c, lo, hi - 1, v);
    }
  }

  /** A fresh table holds 52 cards per deck. */
  lemma TotalFull(deckCount: int)
    ensures Covers(Full(deckCount))
    ensures Total(Full(deckCount)) == 52 * deckCount
  {
    FullAt(deckCount);
    SumConstant(Full(deckCount), 1, 14, 4 * deckCount);
  }
}
