/**
 * The one-vs-one pair order: the pairs `(i, j)` with `i < j < K` are
 * visited row by row, and the running pair counter `p` of that visit is the
 * pair's slot in the decision, rho and probability arrays.
 */
module PairOrder {

  /**
   * Number of one-vs-one classifiers for `K` classes: the value of the pair
   * counter after the last row. `NumPairsClosed` shows it is the
   * `K * (K - 1) / 2` the allocations compute.
   */
  function NumPairs(K: nat): nat
  {
    RowStart(K, K)
  }

  /** The value of the pair counter when row `i` (the pairs `(i, _)`) begins. */
  function RowStart(i: nat, K: nat): nat
    requires i <= K
  {
    if i == 0 then 0 else RowStart(i - 1, K) + (K - i)
  }

  /** Pair `(a, b)` is visited before pair `(i, j)`. */
  predicate LexBefore(a: nat, b: nat, i: nat, j: nat)
  {
    a < i || (a == i && b < j)
  }

  /** Closed form of the row start; twice it, to stay in integers. */
  lemma {:induction false} RowStartClosed(i: nat, K: nat)
    requires i <= K
    ensures 2 * RowStart(i, K) == i * (2 * K - i - 1)
  {
    if i > 0 {
      RowStartClosed(i - 1, K);
      ShiftProduct(i - 1, 2 * K - i);
    }
  }

  /** Moving one unit from the second factor to the first. */
  lemma {:induction false} ShiftProduct(a: int, b: int)
    ensures (a + 1) * (b - 1) == a * b - a + b - 1
  {
  }

  /** After the last row the counter equals `K * (K - 1) / 2`, the size of the decision arrays. */
  lemma {:induction false} NumPairsClosed(K: nat)
    ensures NumPairs(K) == K * (K - 1) / 2
  {
    RowStartClosed(K, K);
    assert K * (2 * K - K - 1) == K * (K - 1);
  }

  /** Row starts never decrease. */
  lemma {:induction false} RowStartMono(a: nat, b: nat, K: nat)
    requires a <= b <= K
    ensures RowStart(a, K) <= RowStart(b, K)
    decreases b - a
  {
    if a < b {
      RowStartMono(a, b - 1, K);
    }
  }

  /**
   * The value of the pair counter `p` when pair `(i, j)` is trained: a slot
   * inside row `i` and inside the arrays of `K * (K - 1) / 2` entries.
   */
  function PairIndex(i: nat, j: nat, K: nat): (p: nat)
    requires i < j < K
    ensures RowStart(i, K) <= p < RowStart(i + 1, K)
    ensures p < NumPairs(K)
  {
    RowStartMono(i + 1, K, K);
    RowStart(i, K) + (j - i - 1)
  }

  /** Visiting order and counter order agree: an earlier pair has a smaller slot. */
  lemma {:induction false} PairIndexMonotone(a: nat, b: nat, i: nat, j: nat, K: nat)
    requires a < b < K && i < j < K
    requires LexBefore(a, b, i, j)
    ensures PairIndex(a, b, K) < PairIndex(i, j, K)
  {
    if a < i {
      RowStartMono(a + 1, i, K);
    }
  }

  /** Distinct pairs have distinct slots. */
  lemma {:induction false} PairIndexInjective(a: nat, b: nat, i: nat, j: nat, K: nat)
    requires a < b < K && i < j < K
    requires PairIndex(a, b, K) == PairIndex(i, j, K)
    ensures a == i && b == j
  {
    if LexBefore(a, b, i, j) {
      PairIndexMonotone(a, b, i, j, K);
    } else if LexBefore(i, j, a, b) {
      PairIndexMonotone(i, j, a, b, K);
    }
  }

  /** Every slot below `K * (K - 1) / 2` belongs to some pair. */
  lemma {:induction false} PairIndexOnto(p: nat, K: nat)
    requires p < NumPairs(K)
    ensures exists i, j | 0 <= i < j < K :: PairIndex(i, j, K) == p
  {
    var i := RowOf(p, 0, K);
    var j := i + 1 + (p - RowStart(i, K));
    assert PairIndex(i, j, K) == p;
  }

  /** The row `i >= i0` whose slots contain `p`. */
  function RowOf(p: nat, i0: nat, K: nat): (i: nat)
    requires i0 <= K && RowStart(i0, K) <= p < RowStart(K, K)
    ensures i0 <= i < K && RowStart(i, K) <= p < RowStart(i + 1, K)
    decreases K - i0
  {
    if p < RowStart(i0 + 1, K) then i0 else RowOf(p, i0 + 1, K)
  }
}
