/** The expected-value arithmetic of a completed two-card selection (`calculateEV`). */
module Ev {
  import opened Deck

  datatype Option<T> = None | Some(value: T)

  /** An exact EV, or the case in which the remaining-card denominator is zero
      (where the page's floating-point division yields Infinity or NaN). */
  datatype EvResult = Value(ev: real) | DivisionUndefined

  function Min(a: int, b: int): int { if a < b then a else b }
  function Max(a: int, b: int): int { if a < b then b else a }

  /** Cards of a rank strictly between the two selected ranks. */
  function WinOuts(c: Counts, a: int, b: int): int
    requires Covers(c) && IsRank(a) && IsRank(b)
  {
    Sum(c, Min(a, b) + 1, Max(a, b))
  }

  /** Cards of the selected ranks; a rank selected twice is counted once. */
  function TiangOuts(c: Counts, a: int, b: int): int
    requires Covers(c) && IsRank(a) && IsRank(b)
  {
    if a != b then c[a] + c[b] else c[a]
  }

  /** Cards not yet seen: every card of every deck, less the current pair, the
      pairs of earlier rounds and the discards. */
  function TotalOuts(deckCount: int, rounds: int, discards: int): int {
    52 * deckCount - 2 - 2 * rounds - discards
  }

  /** `(2 * winOuts - tiangOuts) / totalOuts - 1`, with the zero denominator made explicit. */
  function Expected(deckCount: int, c: Counts, a: int, b: int, rounds: int, discards: int): EvResult
    requires Covers(c) && IsRank(a) && IsRank(b)
  {
    var total := TotalOuts(deckCount, rounds, discards);
    if total == 0 then DivisionUndefined
    else Value((2 * WinOuts(c, a, b) - TiangOuts(c, a, b)) as real / total as real - 1.0)
  }

  /** The win outs and the tiang outs are disjoint parts of the remaining cards. */
  lemma OutsWithinTotal(c: Counts, a: int, b: int)
    requires Covers(c) && NonNegative(c) && IsRank(a) && IsRank(b)
    ensures 0 <= WinOuts(c, a, b) && 0 <= TiangOuts(c, a, b)
    ensures WinOuts(c, a, b) + TiangOuts(c, a, b) <= Total(c)
  {
    var lo, hi := Min(a, b), Max(a, b);
    SumSplit(c, 1, lo, 14);
    SumSplit(c, lo, lo + 1, 14);
    SumNonNegative(c, 1, lo);
    if lo == hi {
      SumNonNegative(c, lo + 1, 14);
    } else {
      SumSplit(c, lo + 1, hi, 14);
      SumSplit(c, hi, hi + 1, 14);
      SumNonNegative(c, lo + 1, hi);
      SumNonNegative(c, hi + 1, 14);
    }
  }

  /** A factor whose product with a positive number is non-negative is non-negative. */
  lemma NonNegativeFactor(x: real, y: real)
    requires 0.0 < y && 0.0 <= x * y
    ensures 0.0 <= x
  {
  }

  /** A ratio whose numerator lies between -den and 2 * den lies between -1 and 2. */
  lemma RatioWithin(num: int, den: int)
    requires 0 < den && -den <= num <= 2 * den
    ensures -1.0 <= num as real / den as real <= 2.0
  {
    var n, d := num as real, den as real;
    var q := n / d;
    assert q * d == n;
    assert (2.0 - q) * d == 2.0 * d - n;
    assert (q + 1.0) * d == n + d;
    NonNegativeFactor(2.0 - q, d);
    NonNegativeFactor(q + 1.0, d);
  }

  /** While the remaining cards do not outnumber the unseen ones, the EV lies in
      [-2, 1], and it is undefined only when no card is left at all. */
  lemma ExpectedBounds(deckCount: int, c: Counts, a: int, b: int, rounds: int, discards: int)
    requires Covers(c) && NonNegative(c) && IsRank(a) && IsRank(b)
    requires Total(c) <= TotalOuts(deckCount, rounds, discards)
    ensures Expected(deckCount, c, a, b, rounds, discards).Value? ==>
              -2.0 <= Expected(deckCount, c, a, b, rounds, discards).ev <= 1.0
    ensures Expected(deckCount, c, a, b, rounds, discards) == DivisionUndefined ==> Total(c) == 0
  {
    OutsWithinTotal(c, a, b);
    SumNonNegative(c, 1, 14);
    var total := TotalOuts(deckCount, rounds, discards);
    if total != 0 {
      RatioWithin(2 * WinOuts(c, a, b) - TiangOuts(c, a, b), total);
    }
  }

  /** The EV does not depend on the order in which the two cards were selected. */
  lemma ExpectedSymmetric(deckCount: int, c: Counts, a: int, b: int, rounds: int, discards: int)
    requires Covers(c) && IsRank(a) && IsRank(b)
    ensures Expected(deckCount, c, a, b, rounds, discards) == Expected(deckCount, c, b, a, rounds, discards)
  {
  }
}
