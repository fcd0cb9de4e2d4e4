/**
 * The coefficient matrix of a classification model: `nrClass - 1` rows of
 * `l` columns, one column per support vector in grouped order. The columns
 * of class `m` form the block that starts at `nz_start[m]`; in row `r`,
 * those columns hold the coefficients from the classifier that opposes
 * class `m` to class `r` when `r < m`, and to class `r + 1` otherwise.
 */
module Coefficients {
  import opened SvmTypes
  import opened Sequences
  import opened PairOrder
  import opened ClassRuns
  import opened Pairwise
  import opened Assembler

  /** Every pairwise decision carries one coefficient per sample of its sub-problem. */
  ghost predicate AlphaShaped(fs: seq<Decision>, g: Grouping)
    requires |g.count| == g.nrClass && |fs| == NumPairs(g.nrClass)
  {
    forall i, j {:trigger PairIndex(i, j, g.nrClass)} | 0 <= i < j < g.nrClass ::
      |fs[PairIndex(i, j, g.nrClass)].alpha| == g.count[i] + g.count[j]
  }

  /** Decisions trained by a solver that meets its contract are shaped. */
  lemma {:induction false} TrainedShaped(fs: seq<Decision>, x: seq<Sample>, g: Grouping, wc: seq<real>, param: Parameter, coll: Collaborators)
    requires GroupShape(g, |x|) && |wc| == g.nrClass && coll.Valid()
    requires PairsTrained(fs, x, g, wc, param, coll)
    ensures AlphaShaped(fs, g)
  {
    forall i, j | 0 <= i < j < g.nrClass
      ensures |fs[PairIndex(i, j, g.nrClass)].alpha| == g.count[i] + g.count[j]
    {
      TrainOneLength(coll, SubProblem(x, g, i, j), param, wc[i], wc[j]);
    }
  }

  /** The pair whose classifier fills row `r` of the columns of class `m`. */
  function OwnerPair(m: nat, r: nat): (pr: (nat, nat))
    ensures pr.0 < pr.1 <= (if m <= r then r + 1 else m)
  {
    if m <= r then (m, r + 1) else (r, m)
  }

  /** The slot, in the pair order, of the classifier that fills row `r` of class `m`'s columns. */
  function OwnerSlot(m: nat, r: nat, K: nat): nat
    requires m < K && r + 1 < K
  {
    var pr := OwnerPair(m, r);
    PairIndex(pr.0, pr.1, K)
  }

  /**
   * The layout of the classifier of pair `(i, j)`: of all (class, row)
   * combinations it fills exactly class `i` in row `j - 1` and class `j` in
   * row `i`.
   */
  lemma {:induction false} OwnerSlotLayout(m: nat, r: nat, i: nat, j: nat, K: nat)
    requires m < K && r + 1 < K && i < j < K
    ensures OwnerSlot(m, r, K) == PairIndex(i, j, K) <==> (r == j - 1 && m == i) || (r == i && m == j)
  {
    var pr := OwnerPair(m, r);
    if OwnerSlot(m, r, K) == PairIndex(i, j, K) {
      PairIndexInjective(pr.0, pr.1, i, j, K);
    }
  }

  /**
   * The coefficient of offset `k` of class `m`'s run in the classifier of
   * `OwnerPair(m, r)`: entry `k` of its decision when `m` is the pair's
   * first class, entry `count[r] + k` when it is the second.
   */
  function PairCoef(fs: seq<Decision>, g: Grouping, m: nat, r: nat, k: nat): real
    requires |g.count| == g.nrClass && |fs| == NumPairs(g.nrClass) && AlphaShaped(fs, g)
    requires m < g.nrClass && r + 1 < g.nrClass && k < g.count[m]
  {
    if m <= r then fs[PairIndex(m, r + 1, g.nrClass)].alpha[k]
    else fs[PairIndex(r, m, g.nrClass)].alpha[g.count[r] + k]
  }

  /**
   * The coefficient the model holds for support vector `t` (a flagged
   * grouped position) in row `r`: its coefficient in the classifier that
   * opposes its class to the row's other class.
   */
  function ExpectedCoef(fs: seq<Decision>, g: Grouping, nonzero: seq<bool>, r: nat, t: nat): real
    requires GroupShape(g, |nonzero|) && |fs| == NumPairs(g.nrClass) && AlphaShaped(fs, g)
    requires r + 1 < g.nrClass && t < |nonzero|
  {
    var m := ClassOf(g, |nonzero|, t);
    PairCoef(fs, g, m, r, t - g.start[m])
  }

  /**
   * A support vector of class `m` lies in the block of class `m`: its column
   * is `nz_start[m]` plus the number of support vectors before it in its
   * own run, which is below `nSV[m]`.
   */
  lemma {:induction false} ColumnInBlock(nonzero: seq<bool>, g: Grouping, t: nat)
    requires GroupShape(g, |nonzero|) && t < |nonzero| && nonzero[t]
    ensures var m := ClassOf(g, |nonzero|, t);
      var nsv := ClassCounts(nonzero, g);
      && Rank(nonzero, t) == PrefixSum(nsv, m) + Rank(ClassFlags(nonzero, g, m), t - g.start[m])
      && PrefixSum(nsv, m) <= Rank(nonzero, t) < PrefixSum(nsv, m) + nsv[m]
  {
    var m := ClassOf(g, |nonzero|, t);
    var fl := ClassFlags(nonzero, g, m);
    var k := t - g.start[m];
    ColumnSplit(nonzero, g, t);
    assert fl[k] == nonzero[g.start[m] + k] == nonzero[t];
    RankMonotone(fl, k, |fl|);
    assert fl[..|fl|] == fl;
  }

  /** The column of a sample of class `m`: the support vectors of the earlier classes, then those before it in its run. */
  lemma {:induction false} ColumnSplit(nonzero: seq<bool>, g: Grouping, t: nat)
    requires GroupShape(g, |nonzero|) && t < |nonzero|
    ensures var m := ClassOf(g, |nonzero|, t);
      Rank(nonzero, t) == PrefixSum(ClassCounts(nonzero, g), m) + Rank(ClassFlags(nonzero, g, m), t - g.start[m])
  {
    var m := ClassOf(g, |nonzero|, t);
    ClassCountsPrefix(nonzero, g, m);
    CountTrueSplit(nonzero, g.start[m], t);
    assert nonzero[g.start[m]..t] == ClassFlags(nonzero, g, m)[..t - g.start[m]];
  }

  /** Support vectors of different classes never share a column: the blocks are disjoint. */
  lemma {:induction false} BlocksDisjoint(nsv: seq<nat>, c: nat, m1: nat, m2: nat)
    requires m1 < |nsv| && m2 < |nsv|
    requires PrefixSum(nsv, m1) <= c < PrefixSum(nsv, m1) + nsv[m1]
    requires PrefixSum(nsv, m2) <= c < PrefixSum(nsv, m2) + nsv[m2]
    ensures m1 == m2
  {
    RunIndexUnique(nsv, c, m1);
    RunIndexUnique(nsv, c, m2);
  }

  /** The columns of class `m` end no later than the last column. */
  lemma {:induction false} BlockWithin(nonzero: seq<bool>, g: Grouping, m: nat)
    requires GroupShape(g, |nonzero|) && m < g.nrClass
    ensures var nsv := ClassCounts(nonzero, g);
      PrefixSum(nsv, m) + nsv[m] <= CountTrue(nonzero)
  {
    RunsOrdered(ClassCounts(nonzero, g), m, g.nrClass);
    ClassCountsTotal(nonzero, g);
  }
  /**
   * The block starts `nz_start` of the classes: `nz_start[m]` is the number
   * of support vectors of the classes before `m`.
   */
  predicate BlockStarts(nzStart: seq<nat>, nonzero: seq<bool>, g: Grouping)
    requires GroupShape(g, |nonzero|)
  {
    |nzStart| == g.nrClass && forall m | 0 <= m < g.nrClass :: nzStart[m] == PrefixSum(ClassCounts(nonzero, g), m)
  }
  /**
   * Where a support vector's column lies relative to the block of class
   * `m`: inside it, at the rank of its offset among the flags of the run of
   * `m`, exactly when it belongs to `m`.
   */
  lemma {:induction false} ColumnInClass(nonzero: seq<bool>, g: Grouping, nzStart: seq<nat>, m: nat, t: nat)
    requires GroupShape(g, |nonzero|) && BlockStarts(nzStart, nonzero, g) && m < g.nrClass
    requires t < |nonzero| && nonzero[t]
    ensures var fl := ClassFlags(nonzero, g, m);
      var c := Rank(nonzero, t);
      if ClassOf(g, |nonzero|, t) == m then
        var k := t - g.start[m];
        k < |fl| && fl[k] && c == nzStart[m] + Rank(fl, k)
      else !(nzStart[m] <= c < nzStart[m] + CountTrue(fl))
  {
    var nsv := ClassCounts(nonzero, g);
    var c := Rank(nonzero, t);
    var m' := ClassOf(g, |nonzero|, t);
    ColumnInBlock(nonzero, g, t);
    if m' != m && nzStart[m] <= c < nzStart[m] + nsv[m] {
      BlocksDisjoint(nsv, c, m', m);
    }
  }
  /**
   * The cells the classifier of pair `(i, j)` owns, and what they expect:
   * in row `j - 1` the support vectors of class `i`, taking the first part
   * of its coefficients; in row `i` those of class `j`, taking the second.
   */
  lemma {:induction false} PairCells(fs: seq<Decision>, g: Grouping, nonzero: seq<bool>, i: nat, j: nat, r: nat, t: nat)
    requires GroupShape(g, |nonzero|) && |fs| == NumPairs(g.nrClass) && AlphaShaped(fs, g)
    requires i < j < g.nrClass && r < g.nrClass - 1 && t < |nonzero|
    ensures var m := ClassOf(g, |nonzero|, t);
      var alpha := fs[PairIndex(i, j, g.nrClass)].alpha;
      && (OwnerSlot(m, r, g.nrClass) == PairIndex(i, j, g.nrClass) <==> (r == j - 1 && m == i) || (r == i && m == j))
      && (r == j - 1 && m == i ==> ExpectedCoef(fs, g, nonzero, r, t) == alpha[t - g.start[i]])
      && (r == i && m == j ==> ExpectedCoef(fs, g, nonzero, r, t) == alpha[g.count[i] + (t - g.start[j])])
  {
    OwnerSlotLayout(ClassOf(g, |nonzero|, t), r, i, j, g.nrClass);
  }
  /** `rows` has `n` rows of `w` entries each. */
  predicate IsMatrix(rows: seq<seq<real>>, n: nat, w: nat)
  {
    |rows| == n && forall r | 0 <= r < n :: |rows[r]| == w
  }

  /** The rows of a matrix. */
  function Rows(coef: array2<real>): (rows: seq<seq<real>>)
    reads coef
    ensures IsMatrix(rows, coef.Length0, coef.Length1)
    ensures forall r, c | 0 <= r < coef.Length0 && 0 <= c < coef.Length1 :: rows[r][c] == coef[r, c]
  {
    seq(coef.Length0, r requires 0 <= r < coef.Length0 reads coef =>
      seq(coef.Length1, c requires 0 <= c < coef.Length1 reads coef => coef[r, c]))
  }

  /**
   * What one scatter loop does to an `n` by `w` matrix: walking a run with
   * flags `fl`, the coefficient `alpha[off + k]` of every flagged offset `k`
   * lands in row `row`, column `q0` plus the number of flagged offsets
   * before `k`; every cell outside the `CountTrue(fl)` columns from `q0` of
   * that row keeps its value.
   */
  predicate RunScattered(before: seq<seq<real>>, after: seq<seq<real>>, n: nat, w: nat,
                         row: nat, fl: seq<bool>, q0: nat, alpha: seq<real>, off: nat)
    requires IsMatrix(before, n, w) && IsMatrix(after, n, w)
    requires row < n && q0 + CountTrue(fl) <= w && off + |fl| <= |alpha|
  {
    && (forall k {:trigger Rank(fl, k)} | 0 <= k < |fl| && fl[k] ::
          after[row][q0 + Rank(fl, k)] == alpha[off + k])
    && (forall r, c | 0 <= r < n && 0 <= c < w && !(r == row && q0 <= c < q0 + CountTrue(fl)) ::
          after[r][c] == before[r][c])
  }

  /** A flagged offset's cell after one scatter loop. */
  lemma {:induction false} RunCellWritten(before: seq<seq<real>>, after: seq<seq<real>>, n: nat, w: nat,
                       row: nat, fl: seq<bool>, q0: nat, alpha: seq<real>, off: nat, k: nat)
    requires IsMatrix(before, n, w) && IsMatrix(after, n, w)
    requires row < n && q0 + CountTrue(fl) <= w && off + |fl| <= |alpha|
    requires RunScattered(before, after, n, w, row, fl, q0, alpha, off)
    requires k < |fl| && fl[k]
    ensures q0 + Rank(fl, k) < w && after[row][q0 + Rank(fl, k)] == alpha[off + k]
  {
  }

  /** A cell outside the written columns after one scatter loop. */
  lemma {:induction false} RunCellKept(before: seq<seq<real>>, after: seq<seq<real>>, n: nat, w: nat,
                    row: nat, fl: seq<bool>, q0: nat, alpha: seq<real>, off: nat, r: nat, c: nat)
    requires IsMatrix(before, n, w) && IsMatrix(after, n, w)
    requires row < n && q0 + CountTrue(fl) <= w && off + |fl| <= |alpha|
    requires RunScattered(before, after, n, w, row, fl, q0, alpha, off)
    requires r < n && c < w && !(r == row && q0 <= c < q0 + CountTrue(fl))
    ensures after[r][c] == before[r][c]
  {
  }

  /** One scatter loop, writing in place into row `row` of the coefficient matrix. */
  method ScatterRun(coef: array2<real>, row: nat, fl: seq<bool>, q0: nat, alpha: seq<real>, off: nat)
    requires row < coef.Length0 && q0 + CountTrue(fl) <= coef.Length1 && off + |fl| <= |alpha|
    modifies coef
    ensures RunScattered(old(Rows(coef)), Rows(coef), coef.Length0, coef.Length1, row, fl, q0, alpha, off)
  {
    var q := q0;
    assert fl[..|fl|] == fl;
    for k := 0 to |fl|
      invariant q == q0 + Rank(fl, k) <= q0 + CountTrue(fl)
      invariant forall u {:trigger Rank(fl, u)} | 0 <= u < k && fl[u] ::
        q0 + Rank(fl, u) < q && coef[row, q0 + Rank(fl, u)] == alpha[off + u]
      invariant forall r, c | 0 <= r < coef.Length0 && 0 <= c < coef.Length1 && !(r == row && q0 <= c < q) ::
        coef[r, c] == old(coef[r, c])
    {
      CountTrueStep(fl, k);
      CountTrueMono(fl, k + 1, |fl|);
      if fl[k] {
        coef[row, q] := alpha[off + k];
        q := q + 1;
      }
    }
  }

  /**
   * What the scatter loop of class `m`'s run into row `row` does, read over
   * the support vectors: each support vector `t` of class `m` receives
   * `alpha[off + (t - start[m])]` in row `row` of its column, and the
   * columns of all other support vectors, and the other rows, keep their
   * values.
   */
  ghost predicate ClassScattered(before: seq<seq<real>>, after: seq<seq<real>>, g: Grouping, nonzero: seq<bool>,
                                 row: nat, m: nat, alpha: seq<real>, off: nat)
    requires GroupShape(g, |nonzero|) && m < g.nrClass && row < g.nrClass - 1
    requires IsMatrix(before, g.nrClass - 1, CountTrue(nonzero)) && IsMatrix(after, g.nrClass - 1, CountTrue(nonzero))
    requires off + g.count[m] <= |alpha|
  {
    && (forall t | 0 <= t < |nonzero| && nonzero[t] && ClassOf(g, |nonzero|, t) == m ::
          after[row][Rank(nonzero, t)] == alpha[off + (t - g.start[m])])
    && (forall r, t | 0 <= r < g.nrClass - 1 && 0 <= t < |nonzero| && nonzero[t]
                      && !(r == row && ClassOf(g, |nonzero|, t) == m) ::
          after[r][Rank(nonzero, t)] == before[r][Rank(nonzero, t)])
  }

  /** The scatter loop of class `m`'s run, which walks the flags of that run from column `nz_start[m]`, scatters class `m`. */
  lemma {:induction false} ClassScatter(before: seq<seq<real>>, after: seq<seq<real>>, g: Grouping, nonzero: seq<bool>, nzStart: seq<nat>,
                     row: nat, m: nat, alpha: seq<real>, off: nat)
    requires GroupShape(g, |nonzero|) && BlockStarts(nzStart, nonzero, g) && m < g.nrClass && row < g.nrClass - 1
    requires IsMatrix(before, g.nrClass - 1, CountTrue(nonzero)) && IsMatrix(after, g.nrClass - 1, CountTrue(nonzero))
    requires off + g.count[m] <= |alpha|
    requires nzStart[m] + CountTrue(ClassFlags(nonzero, g, m)) <= CountTrue(nonzero)
    requires RunScattered(before, after, g.nrClass - 1, CountTrue(nonzero), row, ClassFlags(nonzero, g, m), nzStart[m], alpha, off)
    ensures ClassScattered(before, after, g, nonzero, row, m, alpha, off)
  {
    ClassCellsWritten(before, after, g, nonzero, nzStart, row, m, alpha, off);
    ClassCellsKept(before, after, g, nonzero, nzStart, row, m, alpha, off);
  }

  /** The first half of `ClassScatter`: the support vectors of class `m` receive their coefficients. */
  lemma {:induction false} ClassCellsWritten(before: seq<seq<real>>, after: seq<seq<real>>, g: Grouping, nonzero: seq<bool>, nzStart: seq<nat>,
                          row: nat, m: nat, alpha: seq<real>, off: nat)
    requires GroupShape(g, |nonzero|) && BlockStarts(nzStart, nonzero, g) && m < g.nrClass && row < g.nrClass - 1
    requires IsMatrix(before, g.nrClass - 1, CountTrue(nonzero)) && IsMatrix(after, g.nrClass - 1, CountTrue(nonzero))
    requires off + g.count[m] <= |alpha|
    requires nzStart[m] + CountTrue(ClassFlags(nonzero, g, m)) <= CountTrue(nonzero)
    requires RunScattered(before, after, g.nrClass - 1, CountTrue(nonzero), row, ClassFlags(nonzero, g, m), nzStart[m], alpha, off)
    ensures forall t | 0 <= t < |nonzero| && nonzero[t] && ClassOf(g, |nonzero|, t) == m ::
      after[row][Rank(nonzero, t)] == alpha[off + (t - g.start[m])]
  {
    forall t | 0 <= t < |nonzero| && nonzero[t] && ClassOf(g, |nonzero|, t) == m
      ensures after[row][Rank(nonzero, t)] == alpha[off + (t - g.start[m])]
    {
      ClassCellWritten(before, after, g, nonzero, nzStart, row, m, alpha, off, t);
    }
  }

  lemma {:induction false} ClassCellWritten(before: seq<seq<real>>, after: seq<seq<real>>, g: Grouping, nonzero: seq<bool>, nzStart: seq<nat>,
                         row: nat, m: nat, alpha: seq<real>, off: nat, t: nat)
    requires GroupShape(g, |nonzero|) && BlockStarts(nzStart, nonzero, g) && m < g.nrClass && row < g.nrClass - 1
    requires IsMatrix(before, g.nrClass - 1, CountTrue(nonzero)) && IsMatrix(after, g.nrClass - 1, CountTrue(nonzero))
    requires off + g.count[m] <= |alpha|
    requires nzStart[m] + CountTrue(ClassFlags(nonzero, g, m)) <= CountTrue(nonzero)
    requires RunScattered(before, after, g.nrClass - 1, CountTrue(nonzero), row, ClassFlags(nonzero, g, m), nzStart[m], alpha, off)
    requires t < |nonzero| && nonzero[t] && ClassOf(g, |nonzero|, t) == m
    ensures after[row][Rank(nonzero, t)] == alpha[off + (t - g.start[m])]
  {
    ColumnInClass(nonzero, g, nzStart, m, t);
    RunCellWritten(before, after, g.nrClass - 1, CountTrue(nonzero), row, ClassFlags(nonzero, g, m), nzStart[m], alpha, off, t - g.start[m]);
  }

  /** The second half of `ClassScatter`: every other cell of a support vector's column keeps its value. */
  lemma {:induction false} ClassCellsKept(before: seq<seq<real>>, after: seq<seq<real>>, g: Grouping, nonzero: seq<bool>, nzStart: seq<nat>,
                       row: nat, m: nat, alpha: seq<real>, off: nat)
    requires GroupShape(g, |nonzero|) && BlockStarts(nzStart, nonzero, g) && m < g.nrClass && row < g.nrClass - 1
    requires IsMatrix(before, g.nrClass - 1, CountTrue(nonzero)) && IsMatrix(after, g.nrClass - 1, CountTrue(nonzero))
    requires off + g.count[m] <= |alpha|
    requires nzStart[m] + CountTrue(ClassFlags(nonzero, g, m)) <= CountTrue(nonzero)
    requires RunScattered(before, after, g.nrClass - 1, CountTrue(nonzero), row, ClassFlags(nonzero, g, m), nzStart[m], alpha, off)
    ensures forall r, t | 0 <= r < g.nrClass - 1 && 0 <= t < |nonzero| && nonzero[t]
                          && !(r == row && ClassOf(g, |nonzero|, t) == m) ::
      after[r][Rank(nonzero, t)] == before[r][Rank(nonzero, t)]
  {
    forall r, t | 0 <= r < g.nrClass - 1 && 0 <= t < |nonzero| && nonzero[t] && !(r == row && ClassOf(g, |nonzero|, t) == m)
      ensures after[r][Rank(nonzero, t)] == before[r][Rank(nonzero, t)]
    {
      ClassCellKept(before, after, g, nonzero, nzStart, row, m, alpha, off, r, t);
    }
  }

  lemma {:induction false} ClassCellKept(before: seq<seq<real>>, after: seq<seq<real>>, g: Grouping, nonzero: seq<bool>, nzStart: seq<nat>,
                      row: nat, m: nat, alpha: seq<real>, off: nat, r: nat, t: nat)
    requires GroupShape(g, |nonzero|) && BlockStarts(nzStart, nonzero, g) && m < g.nrClass && row < g.nrClass - 1
    requires IsMatrix(before, g.nrClass - 1, CountTrue(nonzero)) && IsMatrix(after, g.nrClass - 1, CountTrue(nonzero))
    requires off + g.count[m] <= |alpha|
    requires nzStart[m] + CountTrue(ClassFlags(nonzero, g, m)) <= CountTrue(nonzero)
    requires RunScattered(before, after, g.nrClass - 1, CountTrue(nonzero), row, ClassFlags(nonzero, g, m), nzStart[m], alpha, off)
    requires r < g.nrClass - 1 && t < |nonzero| && nonzero[t] && !(r == row && ClassOf(g, |nonzero|, t) == m)
    ensures after[r][Rank(nonzero, t)] == before[r][Rank(nonzero, t)]
  {
    ColumnInClass(nonzero, g, nzStart, m, t);
    RunCellKept(before, after, g.nrClass - 1, CountTrue(nonzero), row, ClassFlags(nonzero, g, m), nzStart[m], alpha, off, r, Rank(nonzero, t));
  }

  /**
   * What the two scatter loops of pair `(i, j)` with coefficients `alpha`
   * do: in row `j - 1` the support vectors of class `i` receive the first
   * `count[i]` coefficients, in row `i` those of class `j` the rest, and
   * every other cell of a support vector's column keeps its value.
   */
  ghost predicate PairScattered(before: seq<seq<real>>, after: seq<seq<real>>, g: Grouping, nonzero: seq<bool>,
                                i: nat, j: nat, alpha: seq<real>)
    requires GroupShape(g, |nonzero|) && i < j < g.nrClass
    requires IsMatrix(before, g.nrClass - 1, CountTrue(nonzero)) && IsMatrix(after, g.nrClass - 1, CountTrue(nonzero))
    requires |alpha| == g.count[i] + g.count[j]
  {
    && (forall t | 0 <= t < |nonzero| && nonzero[t] && ClassOf(g, |nonzero|, t) == i ::
          after[j - 1][Rank(nonzero, t)] == alpha[t - g.start[i]])
    && (forall t | 0 <= t < |nonzero| && nonzero[t] && ClassOf(g, |nonzero|, t) == j ::
          after[i][Rank(nonzero, t)] == alpha[g.count[i] + (t - g.start[j])])
    && (forall r, t | 0 <= r < g.nrClass - 1 && 0 <= t < |nonzero| && nonzero[t]
                      && !(r == j - 1 && ClassOf(g, |nonzero|, t) == i) && !(r == i && ClassOf(g, |nonzero|, t) == j) ::
          after[r][Rank(nonzero, t)] == before[r][Rank(nonzero, t)])
  }

  /** Scattering class `i` into row `j - 1` and then class `j` into row `i` scatters pair `(i, j)`. */
  lemma {:induction false} PairScatter(before: seq<seq<real>>, mid: seq<seq<real>>, after: seq<seq<real>>, g: Grouping, nonzero: seq<bool>,
                    i: nat, j: nat, alpha: seq<real>)
    requires GroupShape(g, |nonzero|) && i < j < g.nrClass
    requires IsMatrix(before, g.nrClass - 1, CountTrue(nonzero)) && IsMatrix(mid, g.nrClass - 1, CountTrue(nonzero))
    requires IsMatrix(after, g.nrClass - 1, CountTrue(nonzero))
    requires |alpha| == g.count[i] + g.count[j]
    requires ClassScattered(before, mid, g, nonzero, j - 1, i, alpha, 0)
    requires ClassScattered(mid, after, g, nonzero, i, j, alpha, g.count[i])
    ensures PairScattered(before, after, g, nonzero, i, j, alpha)
  {
  }

  /**
   * The two scatter loops of pair `(i, j)`: the support vectors of class
   * `i` from column `nz_start[i]` of row `j - 1`, then those of class `j`
   * from column `nz_start[j]` of row `i`.
   */
  method ScatterPair(coef: array2<real>, g: Grouping, nonzero: seq<bool>, nzStart: seq<nat>,
                     i: nat, j: nat, alpha: seq<real>)
    requires GroupShape(g, |nonzero|) && BlockStarts(nzStart, nonzero, g) && i < j < g.nrClass
    requires coef.Length0 == g.nrClass - 1 && coef.Length1 == CountTrue(nonzero)
    requires |alpha| == g.count[i] + g.count[j]
    modifies coef
    ensures PairScattered(old(Rows(coef)), Rows(coef), g, nonzero, i, j, alpha)
  {
    ghost var before := Rows(coef);
    var nsv := ClassCounts(nonzero, g);
    BlockWithin(nonzero, g, i);
    BlockWithin(nonzero, g, j);
    assert nsv[i] == CountTrue(ClassFlags(nonzero, g, i)) && nsv[j] == CountTrue(ClassFlags(nonzero, g, j));
    ScatterRun(coef, j - 1, ClassFlags(nonzero, g, i), nzStart[i], alpha, 0);
    ghost var mid := Rows(coef);
    ClassScatter(before, mid, g, nonzero, nzStart, j - 1, i, alpha, 0);
    ScatterRun(coef, i, ClassFlags(nonzero, g, j), nzStart[j], alpha, g.count[i]);
    ClassScatter(mid, Rows(coef), g, nonzero, nzStart, i, j, alpha, g.count[i]);
    PairScatter(before, mid, Rows(coef), g, nonzero, i, j, alpha);
  }

  /** Every cell of a support vector's column whose owner's slot is below `n` holds its expected coefficient. */
  ghost predicate FilledBelow(rows: seq<seq<real>>, fs: seq<Decision>, g: Grouping, nonzero: seq<bool>, n: nat)
    requires GroupShape(g, |nonzero|) && |fs| == NumPairs(g.nrClass) && AlphaShaped(fs, g)
    requires IsMatrix(rows, g.nrClass - 1, CountTrue(nonzero))
  {
    forall r, t | 0 <= r < g.nrClass - 1 && 0 <= t < |nonzero| && nonzero[t]
                  && OwnerSlot(ClassOf(g, |nonzero|, t), r, g.nrClass) < n ::
      rows[r][Rank(nonzero, t)] == ExpectedCoef(fs, g, nonzero, r, t)
  }

  /**
   * Scattering the coefficients of pair `(i, j)` fills the cells that pair
   * owns and keeps the cells of the pairs before it.
   */
  lemma {:induction false} FillStep(before: seq<seq<real>>, after: seq<seq<real>>, fs: seq<Decision>, g: Grouping, nonzero: seq<bool>,
                 i: nat, j: nat)
    requires GroupShape(g, |nonzero|) && |fs| == NumPairs(g.nrClass) && AlphaShaped(fs, g) && i < j < g.nrClass
    requires IsMatrix(before, g.nrClass - 1, CountTrue(nonzero)) && IsMatrix(after, g.nrClass - 1, CountTrue(nonzero))
    requires FilledBelow(before, fs, g, nonzero, PairIndex(i, j, g.nrClass))
    requires PairScattered(before, after, g, nonzero, i, j, fs[PairIndex(i, j, g.nrClass)].alpha)
    ensures FilledBelow(after, fs, g, nonzero, PairIndex(i, j, g.nrClass) + 1)
  {
    forall r, t | 0 <= r < g.nrClass - 1 && 0 <= t < |nonzero| && nonzero[t]
                  && OwnerSlot(ClassOf(g, |nonzero|, t), r, g.nrClass) < PairIndex(i, j, g.nrClass) + 1
      ensures after[r][Rank(nonzero, t)] == ExpectedCoef(fs, g, nonzero, r, t)
    {
      FillCell(before, after, fs, g, nonzero, i, j, r, t);
    }
  }

  /** `FillStep` at one cell. */
  lemma {:induction false} FillCell(before: seq<seq<real>>, after: seq<seq<real>>, fs: seq<Decision>, g: Grouping, nonzero: seq<bool>,
                 i: nat, j: nat, r: nat, t: nat)
    requires GroupShape(g, |nonzero|) && |fs| == NumPairs(g.nrClass) && AlphaShaped(fs, g) && i < j < g.nrClass
    requires IsMatrix(before, g.nrClass - 1, CountTrue(nonzero)) && IsMatrix(after, g.nrClass - 1, CountTrue(nonzero))
    requires FilledBelow(before, fs, g, nonzero, PairIndex(i, j, g.nrClass))
    requires PairScattered(before, after, g, nonzero, i, j, fs[PairIndex(i, j, g.nrClass)].alpha)
    requires r < g.nrClass - 1 && t < |nonzero| && nonzero[t]
    requires OwnerSlot(ClassOf(g, |nonzero|, t), r, g.nrClass) < PairIndex(i, j, g.nrClass) + 1
    ensures after[r][Rank(nonzero, t)] == ExpectedCoef(fs, g, nonzero, r, t)
  {
    var m := ClassOf(g, |nonzero|, t);
    PairCells(fs, g, nonzero, i, j, r, t);
    if r == j - 1 && m == i {
      FirstClassCell(before, after, fs, g, nonzero, i, j, t);
    } else if r == i && m == j {
      SecondClassCell(before, after, fs, g, nonzero, i, j, t);
    } else {
      EarlierCell(before, after, fs, g, nonzero, i, j, r, t);
    }
  }

  /** A support vector of class `i` gets, in row `j - 1`, its coefficient from the scatter of pair `(i, j)`. */
  lemma {:induction false} FirstClassCell(before: seq<seq<real>>, after: seq<seq<real>>, fs: seq<Decision>, g: Grouping, nonzero: seq<bool>,
                       i: nat, j: nat, t: nat)
    requires GroupShape(g, |nonzero|) && |fs| == NumPairs(g.nrClass) && AlphaShaped(fs, g) && i < j < g.nrClass
    requires IsMatrix(before, g.nrClass - 1, CountTrue(nonzero)) && IsMatrix(after, g.nrClass - 1, CountTrue(nonzero))
    requires PairScattered(before, after, g, nonzero, i, j, fs[PairIndex(i, j, g.nrClass)].alpha)
    requires t < |nonzero| && nonzero[t] && ClassOf(g, |nonzero|, t) == i
    ensures after[j - 1][Rank(nonzero, t)] == ExpectedCoef(fs, g, nonzero, j - 1, t)
  {
    PairCells(fs, g, nonzero, i, j, j - 1, t);
    assert after[j - 1][Rank(nonzero, t)] == fs[PairIndex(i, j, g.nrClass)].alpha[t - g.start[i]];
  }

  /** A support vector of class `j` gets, in row `i`, its coefficient from the scatter of pair `(i, j)`. */
  lemma {:induction false} SecondClassCell(before: seq<seq<real>>, after: seq<seq<real>>, fs: seq<Decision>, g: Grouping, nonzero: seq<bool>,
                        i: nat, j: nat, t: nat)
    requires GroupShape(g, |nonzero|) && |fs| == NumPairs(g.nrClass) && AlphaShaped(fs, g) && i < j < g.nrClass
    requires IsMatrix(before, g.nrClass - 1, CountTrue(nonzero)) && IsMatrix(after, g.nrClass - 1, CountTrue(nonzero))
    requires PairScattered(before, after, g, nonzero, i, j, fs[PairIndex(i, j, g.nrClass)].alpha)
    requires t < |nonzero| && nonzero[t] && ClassOf(g, |nonzero|, t) == j
    ensures after[i][Rank(nonzero, t)] == ExpectedCoef(fs, g, nonzero, i, t)
  {
    PairCells(fs, g, nonzero, i, j, i, t);
    assert after[i][Rank(nonzero, t)] == fs[PairIndex(i, j, g.nrClass)].alpha[g.count[i] + (t - g.start[j])];
  }

  /** A cell owned by an earlier pair keeps the coefficient that pair gave it. */
  lemma {:induction false} EarlierCell(before: seq<seq<real>>, after: seq<seq<real>>, fs: seq<Decision>, g: Grouping, nonzero: seq<bool>,
                    i: nat, j: nat, r: nat, t: nat)
    requires GroupShape(g, |nonzero|) && |fs| == NumPairs(g.nrClass) && AlphaShaped(fs, g) && i < j < g.nrClass
    requires IsMatrix(before, g.nrClass - 1, CountTrue(nonzero)) && IsMatrix(after, g.nrClass - 1, CountTrue(nonzero))
    requires FilledBelow(before, fs, g, nonzero, PairIndex(i, j, g.nrClass))
    requires PairScattered(before, after, g, nonzero, i, j, fs[PairIndex(i, j, g.nrClass)].alpha)
    requires r < g.nrClass - 1 && t < |nonzero| && nonzero[t]
    requires OwnerSlot(ClassOf(g, |nonzero|, t), r, g.nrClass) < PairIndex(i, j, g.nrClass)
    ensures after[r][Rank(nonzero, t)] == ExpectedCoef(fs, g, nonzero, r, t)
  {
    PairCells(fs, g, nonzero, i, j, r, t);
    assert after[r][Rank(nonzero, t)] == before[r][Rank(nonzero, t)];
  }

  /**
   * The coefficient loop of the classification path: `nrClass - 1` rows of
   * `CountTrue(nonzero)` columns, filled pair by pair in the pair order, so
   * that in every row each support vector's column holds the coefficient
   * from the classifier opposing its class to the row's other class.
   */
  method ScatterCoefficients(fs: seq<Decision>, g: Grouping, nonzero: seq<bool>, nzStart: seq<nat>)
    returns (svCoef: seq<seq<real>>)
    requires GroupShape(g, |nonzero|) && |fs| == NumPairs(g.nrClass) && AlphaShaped(fs, g)
    requires BlockStarts(nzStart, nonzero, g)
    ensures IsMatrix(svCoef, g.nrClass - 1, CountTrue(nonzero))
    ensures forall r, t | 0 <= r < g.nrClass - 1 && 0 <= t < |nonzero| && nonzero[t] ::
      svCoef[r][Rank(nonzero, t)] == ExpectedCoef(fs, g, nonzero, r, t)
  {
    var K := g.nrClass;
    var coef := new real[K - 1, CountTrue(nonzero)];
    var p := 0;
    for i := 0 to K
      invariant p == RowStart(i, K)
      invariant FilledBelow(Rows(coef), fs, g, nonzero, p)
    {
      for j := i + 1 to K
        invariant p == RowStart(i, K) + (j - i - 1)
        invariant FilledBelow(Rows(coef), fs, g, nonzero, p)
      {
        assert p == PairIndex(i, j, K);
        ghost var before := Rows(coef);
        ScatterPair(coef, g, nonzero, nzStart, i, j, fs[p].alpha);
        FillStep(before, Rows(coef), fs, g, nonzero, i, j);
        p := p + 1;
      }
    }
    svCoef := Rows(coef);
    forall r, t | 0 <= r < K - 1 && 0 <= t < |nonzero| && nonzero[t]
      ensures svCoef[r][Rank(nonzero, t)] == ExpectedCoef(fs, g, nonzero, r, t)
    {
      assert OwnerSlot(ClassOf(g, |nonzero|, t), r, K) < NumPairs(K);
    }
  }
}
