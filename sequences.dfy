/**
 * Index bookkeeping shared by the training orchestrator: counting flags,
 * the positions of the flagged entries, compaction of a sequence by a flag
 * sequence, exclusive prefix sums and the run that contains a position.
 */
module Sequences {

  /** No value occurs twice. */
  predicate Distinct<T(==)>(s: seq<T>)
  {
    forall a, b | 0 <= a < b < |s| :: s[a] != s[b]
  }

  /** The number of `true` entries of `f`. */
  function CountTrue(f: seq<bool>): (n: nat)
    ensures n <= |f|
  {
    if f == [] then 0 else CountTrue(f[..|f| - 1]) + (if f[|f| - 1] then 1 else 0)
  }

  /** The number of `true` entries before position `t`: the rank of `t` among the flagged positions. */
  function Rank(f: seq<bool>, t: nat): (n: nat)
    requires t <= |f|
    ensures t < |f| && f[t] ==> n < CountTrue(f)
  {
    if t < |f| && f[t] then
      RankMonotone(f, t, |f|);
      assert f[..|f|] == f;
      CountTrue(f[..t])
    else
      CountTrue(f[..t])
  }

  /** The positions of the `true` entries of `f`, in increasing order. */
  function Positions(f: seq<bool>): (ps: seq<nat>)
    ensures |ps| == CountTrue(f)
    ensures forall k | 0 <= k < |ps| :: ps[k] < |f| && f[ps[k]]
  {
    if f == [] then []
    else Positions(f[..|f| - 1]) + (if f[|f| - 1] then [|f| - 1] else [])
  }

  /** The positions are listed in strictly increasing order. */
  lemma {:induction false} PositionsSorted(f: seq<bool>)
    ensures forall k1, k2 | 0 <= k1 < k2 < |Positions(f)| :: Positions(f)[k1] < Positions(f)[k2]
    decreases |f|
  {
    if f != [] {
      PositionsSorted(f[..|f| - 1]);
    }
  }

  /**
   * The entries of `xs` whose flag is set, in their original order: the
   * compaction that both training paths perform when they keep the samples
   * with a nonzero coefficient.
   */
  function Select<T>(xs: seq<T>, f: seq<bool>): (ys: seq<T>)
    requires |xs| == |f|
    ensures |ys| == CountTrue(f)
    ensures forall k | 0 <= k < |ys| :: ys[k] == xs[Positions(f)[k]]
  {
    if f == [] then []
    else Select(xs[..|f| - 1], f[..|f| - 1]) + (if f[|f| - 1] then [xs[|f| - 1]] else [])
  }

  /** Extending a prefix by one entry extends the count by that entry's flag. */
  lemma {:induction false} CountTrueStep(f: seq<bool>, i: nat)
    requires i < |f|
    ensures CountTrue(f[..i + 1]) == CountTrue(f[..i]) + (if f[i] then 1 else 0)
  {
    assert f[..i + 1][..i] == f[..i];
  }

  /** Counting over a longer prefix never gives less. */
  lemma {:induction false} CountTrueMono(f: seq<bool>, i: nat, j: nat)
    requires i <= j <= |f|
    ensures CountTrue(f[..i]) <= CountTrue(f[..j])
    decreases j - i
  {
    if i < j {
      CountTrueStep(f, j - 1);
      CountTrueMono(f, i, j - 1);
    }
  }

  /** Counting a slice: the count of `f[..a]` plus that of `f[a..b]` is the count of `f[..b]`. */
  lemma {:induction false} CountTrueSplit(f: seq<bool>, a: nat, b: nat)
    requires a <= b <= |f|
    ensures CountTrue(f[..a]) + CountTrue(f[a..b]) == CountTrue(f[..b])
    decreases b - a
  {
    if a == b {
      assert f[a..b] == [];
    } else {
      CountTrueSplit(f, a, b - 1);
      CountTrueStep(f, b - 1);
      assert f[a..b][..b - 1 - a] == f[a..b - 1];
    }
  }

  /** Compacting a prefix one entry longer appends that entry exactly when it is flagged. */
  lemma {:induction false} SelectStep<T>(xs: seq<T>, f: seq<bool>, i: nat)
    requires |xs| == |f| && i < |f|
    ensures Select(xs[..i + 1], f[..i + 1]) == Select(xs[..i], f[..i]) + (if f[i] then [xs[i]] else [])
  {
    assert xs[..i + 1][..i] == xs[..i];
    assert f[..i + 1][..i] == f[..i];
  }

  /**
   * The rank of a flagged position: among the flagged positions of `f`, the
   * one at rank `CountTrue(f[..k])` is `k` itself. This is what lets a write
   * cursor that advances only on flagged entries land on the right slot.
   */
  lemma {:induction false} PositionsAtRank(f: seq<bool>, k: nat)
    requires k < |f| && f[k]
    ensures CountTrue(f[..k]) < CountTrue(f)
    ensures Positions(f)[CountTrue(f[..k])] == k
    decreases |f|
  {
    var n := |f| - 1;
    if k == n {
      assert f[..k] == f[..n];
    } else {
      PositionsAtRank(f[..n], k);
      assert f[..n][..k] == f[..k];
    }
  }

  /** The inverse of `PositionsAtRank`: the `q`-th flagged position has `q` flags before it. */
  lemma {:induction false} RankOfPosition(f: seq<bool>, q: nat)
    requires q < CountTrue(f)
    ensures CountTrue(f[..Positions(f)[q]]) == q
  {
    var ps := Positions(f);
    var k := ps[q];
    PositionsAtRank(f, k);
    PositionsSorted(f);
  }

  /** Every count below the total is the rank of some flagged position. */
  lemma {:induction false} RankOnto(f: seq<bool>, c: nat)
    requires c < CountTrue(f)
    ensures exists t | 0 <= t < |f| && f[t] :: CountTrue(f[..t]) == c
  {
    RankOfPosition(f, c);
    assert f[Positions(f)[c]];
  }

  /** Distinct flagged positions have distinct ranks: an earlier one has a smaller rank. */
  lemma {:induction false} RankMonotone(f: seq<bool>, t1: nat, t2: nat)
    requires t1 < t2 <= |f| && f[t1]
    ensures CountTrue(f[..t1]) < CountTrue(f[..t2])
  {
    CountTrueStep(f, t1);
    CountTrueMono(f, t1 + 1, t2);
  }

  /** Compacting a sequence without repetitions gives one without repetitions. */
  lemma {:induction false} SelectDistinct<T>(xs: seq<T>, f: seq<bool>)
    requires |xs| == |f| && Distinct(xs)
    ensures Distinct(Select(xs, f))
  {
    var ys := Select(xs, f);
    var ps := Positions(f);
    PositionsSorted(f);
    forall a, b | 0 <= a < b < |ys| ensures ys[a] != ys[b] {
      assert ps[a] < ps[b];
    }
  }

  /** The exclusive prefix sum of `s`: the sum of its first `m` entries. */
  function PrefixSum(s: seq<nat>, m: nat): nat
    requires m <= |s|
  {
    if m == 0 then 0 else PrefixSum(s, m - 1) + s[m - 1]
  }

  /** Prefix sums of naturals never decrease. */
  lemma {:induction false} PrefixSumMono(s: seq<nat>, a: nat, b: nat)
    requires a <= b <= |s|
    ensures PrefixSum(s, a) <= PrefixSum(s, b)
    decreases b - a
  {
    if a < b {
      PrefixSumMono(s, a, b - 1);
    }
  }

  /** The run `a` of a concatenation of runs ends no later than any later run begins. */
  lemma {:induction false} RunsOrdered(s: seq<nat>, a: nat, b: nat)
    requires a < b <= |s|
    ensures PrefixSum(s, a) + s[a] <= PrefixSum(s, b)
  {
    assert PrefixSum(s, a + 1) == PrefixSum(s, a) + s[a];
    PrefixSumMono(s, a + 1, b);
  }

  /**
   * When runs of lengths `s` are laid end to end, the run that contains
   * position `c`.
   */
  function RunIndex(s: seq<nat>, c: nat): (m: nat)
    requires c < PrefixSum(s, |s|)
    ensures m < |s| && PrefixSum(s, m) <= c < PrefixSum(s, m + 1)
  {
    RunIndexFrom(s, c, 0)
  }

  function RunIndexFrom(s: seq<nat>, c: nat, m0: nat): (m: nat)
    requires m0 < |s| && PrefixSum(s, m0) <= c < PrefixSum(s, |s|)
    ensures m0 <= m < |s| && PrefixSum(s, m) <= c < PrefixSum(s, m + 1)
    decreases |s| - m0
  {
    if c < PrefixSum(s, m0 + 1) then m0 else RunIndexFrom(s, c, m0 + 1)
  }

  /** Runs do not overlap: a position lies in exactly one run. */
  lemma {:induction false} RunIndexUnique(s: seq<nat>, c: nat, m: nat)
    requires m < |s| && PrefixSum(s, m) <= c < PrefixSum(s, m + 1)
    ensures c < PrefixSum(s, |s|)
    ensures RunIndex(s, c) == m
  {
    PrefixSumMono(s, m + 1, |s|);
    var m' := RunIndex(s, c);
    if m' < m {
      PrefixSumMono(s, m' + 1, m);
    } else if m < m' {
      PrefixSumMono(s, m + 1, m');
    }
  }
}
