/**
 * The one-vs-one training loop of the classification path: for every pair
 * of classes `i < j` it builds the two-class sub-problem, optionally
 * calibrates it, trains one binary machine on it, records the decision in
 * slot `p` of the pair order and marks the samples that received a nonzero
 * coefficient.
 */
module Pairwise {
  import opened Wrappers
  import opened SvmTypes
  import opened Sequences
  import opened PairOrder
  import opened ClassRuns

  /** Run `i` ends before run `j` starts, and run `j` ends inside the `l` grouped samples. */
  lemma {:induction false} PairRuns(g: Grouping, l: nat, i: nat, j: nat)
    requires GroupShape(g, l) && i < j < g.nrClass
    ensures g.start[i] + g.count[i] <= g.start[j] && g.start[j] + g.count[j] <= l
  {
    RunWithin(g, l, i);
    RunWithin(g, l, j);
  }

  /** The grouped position of entry `u` of the sub-problem of classes `i` and `j`. */
  function SubPosition(g: Grouping, i: nat, j: nat, u: nat): nat
    requires |g.start| == |g.count| == g.nrClass && i < j < g.nrClass
  {
    if u < g.count[i] then g.start[i] + u else g.start[j] + (u - g.count[i])
  }

  /**
   * The two-class sub-problem of classes `i` and `j`: the grouped samples of
   * class `i` labelled +1, followed by those of class `j` labelled -1.
   */
  function SubProblem(x: seq<Sample>, g: Grouping, i: nat, j: nat): (sub: Problem)
    requires GroupShape(g, |x|) && i < j < g.nrClass
    ensures |sub.x| == |sub.y| == g.count[i] + g.count[j]
    ensures forall u | 0 <= u < |sub.x| ::
      SubPosition(g, i, j, u) < |x| && sub.x[u] == x[SubPosition(g, i, j, u)]
      && sub.y[u] == if u < g.count[i] then 1.0 else -1.0
  {
    PairRuns(g, |x|, i, j);
    var si, sj, ci, cj := g.start[i], g.start[j], g.count[i], g.count[j];
    Problem(x[si..si + ci] + x[sj..sj + cj], seq(ci, _ => 1.0) + seq(cj, _ => -1.0))
  }

  /** The copy loops that fill the sub-problem's sample and label arrays. */
  method BuildSubProblem(x: seq<Sample>, g: Grouping, i: nat, j: nat) returns (sub: Problem)
    requires GroupShape(g, |x|) && i < j < g.nrClass
    ensures sub == SubProblem(x, g, i, j)
  {
    PairRuns(g, |x|, i, j);
    var si, sj, ci, cj := g.start[i], g.start[j], g.count[i], g.count[j];
    var sx := new Sample[ci + cj];
    var sy := new real[ci + cj];
    for k := 0 to ci
      invariant forall u | 0 <= u < k :: sx[u] == x[si + u] && sy[u] == 1.0
    {
      sx[k] := x[si + k];
      sy[k] := 1.0;
    }
    for k := 0 to cj
      invariant forall u | 0 <= u < ci :: sx[u] == x[si + u] && sy[u] == 1.0
      invariant forall u | ci <= u < ci + k :: sx[u] == x[sj + (u - ci)] && sy[u] == -1.0
    {
      sx[ci + k] := x[sj + k];
      sy[ci + k] := -1.0;
    }
    var expected := SubProblem(x, g, i, j);
    assert sx[..] == expected.x;
    assert sy[..] == expected.y;
    sub := Problem(sx[..], sy[..]);
  }

  /**
   * The positive side of the sub-problem is class `i` and the negative side
   * class `j`: entry `u` is original sample `perm[SubPosition(u)]`, whose
   * label is that of class `i` when `u` is labelled +1 and that of class `j`
   * otherwise.
   */
  lemma {:induction false} SubProblemClasses(prob: Problem, g: Grouping, i: nat, j: nat, u: nat)
    requires IsGrouping(prob, g) && i < j < g.nrClass
    requires u < g.count[i] + g.count[j]
    ensures var sub := SubProblem(Permute(prob.x, g.perm), g, i, j);
      var t := SubPosition(g, i, j, u);
      && t < |g.perm| && g.perm[t] < |prob.x|
      && sub.x[u] == prob.x[g.perm[t]]
      && (sub.y[u] == 1.0 ==> Truncate(prob.y[g.perm[t]]) == g.labels[i])
      && (sub.y[u] == -1.0 ==> Truncate(prob.y[g.perm[t]]) == g.labels[j])
  {
    var x := Permute(prob.x, g.perm);
    var t := SubPosition(g, i, j, u);
    PairRuns(g, |x|, i, j);
    assert SubProblem(x, g, i, j).x[u] == x[t];
    if u < g.count[i] {
      assert g.start[i] <= t < g.start[i] + g.count[i];
    } else {
      assert g.start[j] <= t < g.start[j] + g.count[j];
    }
  }

  /**
   * Decision `d` of pair `(i, j)` gives grouped sample `t` a nonzero
   * coefficient: `t` lies in run `i` at offset `k` and `alpha[k]` is
   * nonzero, or in run `j` at offset `k` and `alpha[count[i] + k]` is.
   */
  predicate Hits(d: Decision, g: Grouping, i: nat, j: nat, t: nat)
    requires |g.start| == |g.count| == g.nrClass && i < j < g.nrClass
  {
    || (g.start[i] <= t < g.start[i] + g.count[i]
        && t - g.start[i] < |d.alpha| && d.alpha[t - g.start[i]] != 0.0)
    || (g.start[j] <= t < g.start[j] + g.count[j]
        && g.count[i] + (t - g.start[j]) < |d.alpha| && d.alpha[g.count[i] + (t - g.start[j])] != 0.0)
  }

  /** Grouped sample `t` is a support vector: some pairwise decision gives it a nonzero coefficient. */
  ghost predicate IsSupport(fs: seq<Decision>, g: Grouping, t: nat)
    requires |g.start| == |g.count| == g.nrClass && |fs| == NumPairs(g.nrClass)
  {
    exists i, j | 0 <= i < j < g.nrClass :: Hits(fs[PairIndex(i, j, g.nrClass)], g, i, j, t)
  }

  /** Some pair whose slot is below `n` gives grouped sample `t` a nonzero coefficient. */
  ghost predicate SupportBelow(fs: seq<Decision>, g: Grouping, n: nat, t: nat)
    requires |g.start| == |g.count| == g.nrClass && |fs| == NumPairs(g.nrClass)
  {
    exists i, j | 0 <= i < j < g.nrClass && PairIndex(i, j, g.nrClass) < n ::
      Hits(fs[PairIndex(i, j, g.nrClass)], g, i, j, t)
  }

  /** Every pair whose slot is below `n` holds the decision trained on its sub-problem. */
  ghost predicate TrainedBelow(fs: seq<Decision>, x: seq<Sample>, g: Grouping, wc: seq<real>,
                               param: Parameter, coll: Collaborators, n: nat)
    requires GroupShape(g, |x|) && |wc| == g.nrClass && |fs| == NumPairs(g.nrClass)
  {
    forall i, j | 0 <= i < j < g.nrClass && PairIndex(i, j, g.nrClass) < n ::
      fs[PairIndex(i, j, g.nrClass)] == coll.trainOne(SubProblem(x, g, i, j), param, wc[i], wc[j])
  }

  /** Every pair whose slot is below `n` holds the calibration of its sub-problem. */
  ghost predicate CalibratedBelow(pa: seq<real>, pb: seq<real>, x: seq<Sample>, g: Grouping, wc: seq<real>,
                                  param: Parameter, coll: Collaborators, n: nat)
    requires GroupShape(g, |x|) && |wc| == g.nrClass && |pa| == |pb| == NumPairs(g.nrClass)
  {
    forall i, j | 0 <= i < j < g.nrClass && PairIndex(i, j, g.nrClass) < n ::
      (pa[PairIndex(i, j, g.nrClass)], pb[PairIndex(i, j, g.nrClass)])
        == coll.binaryProbability(SubProblem(x, g, i, j), param, wc[i], wc[j])
  }

  /** The decisions of all pairs, each trained on its sub-problem with the constants of its two classes. */
  ghost predicate PairsTrained(fs: seq<Decision>, x: seq<Sample>, g: Grouping, wc: seq<real>,
                               param: Parameter, coll: Collaborators)
    requires GroupShape(g, |x|) && |wc| == g.nrClass
  {
    && |fs| == NumPairs(g.nrClass)
    && forall i, j | 0 <= i < j < g.nrClass ::
         fs[PairIndex(i, j, g.nrClass)] == coll.trainOne(SubProblem(x, g, i, j), param, wc[i], wc[j])
  }

  /** The calibrations of all pairs, stored at the pair's slot. */
  ghost predicate PairsCalibrated(pa: seq<real>, pb: seq<real>, x: seq<Sample>, g: Grouping, wc: seq<real>,
                                  param: Parameter, coll: Collaborators)
    requires GroupShape(g, |x|) && |wc| == g.nrClass
  {
    && |pa| == |pb| == NumPairs(g.nrClass)
    && forall i, j | 0 <= i < j < g.nrClass ::
         (pa[PairIndex(i, j, g.nrClass)], pb[PairIndex(i, j, g.nrClass)])
           == coll.binaryProbability(SubProblem(x, g, i, j), param, wc[i], wc[j])
  }

  /** Training pair `(i, j)` at its slot `p` extends the pairs below `p` by that pair alone. */
  lemma {:induction false} SupportStep(fs: seq<Decision>, d: Decision, g: Grouping, i: nat, j: nat, t: nat)
    requires |g.start| == |g.count| == g.nrClass && |fs| == NumPairs(g.nrClass) && i < j < g.nrClass
    ensures var p := PairIndex(i, j, g.nrClass);
      SupportBelow(fs[p := d], g, p + 1, t) == (SupportBelow(fs, g, p, t) || Hits(d, g, i, j, t))
  {
    var K := g.nrClass;
    var p := PairIndex(i, j, K);
    var fs' := fs[p := d];
    if SupportBelow(fs', g, p + 1, t) {
      var a, b :| 0 <= a < b < K && PairIndex(a, b, K) < p + 1 && Hits(fs'[PairIndex(a, b, K)], g, a, b, t);
      if PairIndex(a, b, K) != p {
        assert fs'[PairIndex(a, b, K)] == fs[PairIndex(a, b, K)];
      } else {
        PairIndexInjective(a, b, i, j, K);
      }
    }
    if SupportBelow(fs, g, p, t) {
      var a, b :| 0 <= a < b < K && PairIndex(a, b, K) < p && Hits(fs[PairIndex(a, b, K)], g, a, b, t);
      assert fs'[PairIndex(a, b, K)] == fs[PairIndex(a, b, K)];
    }
    if Hits(d, g, i, j, t) {
      assert fs'[PairIndex(i, j, K)] == d;
    }
  }

  /** All slots lie below `K * (K - 1) / 2`, so the pairs below it are all pairs. */
  lemma {:induction false} SupportComplete(fs: seq<Decision>, g: Grouping, t: nat)
    requires |g.start| == |g.count| == g.nrClass && |fs| == NumPairs(g.nrClass)
    ensures SupportBelow(fs, g, NumPairs(g.nrClass), t) == IsSupport(fs, g, t)
  {
    if IsSupport(fs, g, t) {
      var a, b :| 0 <= a < b < g.nrClass && Hits(fs[PairIndex(a, b, g.nrClass)], g, a, b, t);
      assert PairIndex(a, b, g.nrClass) < NumPairs(g.nrClass);
    }
  }

  /**
   * The loops over one decision's coefficients: a sample of run `i` or `j`
   * whose coefficient is nonzero is marked; marks are never cleared.
   */
  method MarkNonzero(nz: array<bool>, d: Decision, g: Grouping, i: nat, j: nat)
    requires GroupShape(g, nz.Length) && i < j < g.nrClass && |d.alpha| == g.count[i] + g.count[j]
    modifies nz
    ensures forall t | 0 <= t < nz.Length :: nz[t] == (old(nz[t]) || Hits(d, g, i, j, t))
  {
    RunWithin(g, nz.Length, i);
    RunWithin(g, nz.Length, j);
    var si, sj, ci, cj := g.start[i], g.start[j], g.count[i], g.count[j];
    for k := 0 to ci
      invariant forall t | 0 <= t < nz.Length ::
        nz[t] == (old(nz[t]) || (si <= t < si + k && d.alpha[t - si] != 0.0))
    {
      if !nz[si + k] && d.alpha[k] != 0.0 {
        nz[si + k] := true;
      }
    }
    for k := 0 to cj
      invariant forall t | 0 <= t < nz.Length ::
        nz[t] == (old(nz[t]) || (si <= t < si + ci && d.alpha[t - si] != 0.0)
                              || (sj <= t < sj + k && d.alpha[ci + (t - sj)] != 0.0))
    {
      if !nz[sj + k] && d.alpha[ci + k] != 0.0 {
        nz[sj + k] := true;
      }
    }
  }

  /**
   * The pair loop: pairs `(i, j)`, `i < j`, are visited row by row with a
   * running counter `p`; pair `(i, j)` is trained on its sub-problem with
   * the constants `wc[i]` and `wc[j]` and stored at slot `p`, its
   * calibration (when probability estimates are requested) at the same slot
   * of `probA`/`probB`, and a grouped sample ends up flagged exactly when
   * some pair gives it a nonzero coefficient.
   */
  method TrainPairs(x: seq<Sample>, g: Grouping, wc: seq<real>, param: Parameter, coll: Collaborators)
    returns (fs: seq<Decision>, probA: Option<seq<real>>, probB: Option<seq<real>>, nonzero: seq<bool>)
    requires GroupShape(g, |x|) && |wc| == g.nrClass && coll.Valid()
    ensures PairsTrained(fs, x, g, wc, param, coll)
    ensures probA.Some? == probB.Some? == param.probability
    ensures param.probability ==> PairsCalibrated(probA.value, probB.value, x, g, wc, param, coll)
    ensures |nonzero| == |x|
    ensures forall t | 0 <= t < |x| :: nonzero[t] == IsSupport(fs, g, t)
  {
    var K := g.nrClass;
    var l := |x|;
    var nz := new bool[l];
    for t := 0 to l
      invariant forall u | 0 <= u < t :: !nz[u]
    {
      nz[t] := false;
    }
    NumPairsClosed(K);
    var f := new Decision[K * (K - 1) / 2];
    var pA := new real[if param.probability then K * (K - 1) / 2 else 0];
    var pB := new real[if param.probability then K * (K - 1) / 2 else 0];
    var p := 0;
    for i := 0 to K
      invariant p == RowStart(i, K)
      invariant TrainedBelow(f[..], x, g, wc, param, coll, p)
      invariant param.probability ==> CalibratedBelow(pA[..], pB[..], x, g, wc, param, coll, p)
      invariant forall t | 0 <= t < l :: nz[t] == SupportBelow(f[..], g, p, t)
    {
      for j := i + 1 to K
        invariant p == RowStart(i, K) + (j - i - 1)
        invariant TrainedBelow(f[..], x, g, wc, param, coll, p)
        invariant param.probability ==> CalibratedBelow(pA[..], pB[..], x, g, wc, param, coll, p)
        invariant forall t | 0 <= t < l :: nz[t] == SupportBelow(f[..], g, p, t)
      {
        TrainPair(x, g, wc, param, coll, i, j, f, pA, pB, nz);
        p := p + 1;
      }
    }
    fs := f[..];
    forall t | 0 <= t < l ensures nz[t] == IsSupport(fs, g, t) {
      SupportComplete(fs, g, t);
    }
    nonzero := nz[..];
    probA := if param.probability then Some(pA[..]) else None;
    probB := if param.probability then Some(pB[..]) else None;
  }

  /**
   * The body of the pair loop for pair `(i, j)`, whose slot is the current
   * counter value: build the sub-problem, calibrate it when requested,
   * train it, store the results at the slot and flag the samples it gives a
   * nonzero coefficient.
   */
  method TrainPair(x: seq<Sample>, g: Grouping, wc: seq<real>, param: Parameter, coll: Collaborators,
                   i: nat, j: nat, f: array<Decision>, pA: array<real>, pB: array<real>, nz: array<bool>)
    requires GroupShape(g, |x|) && |wc| == g.nrClass && coll.Valid() && i < j < g.nrClass
    requires f.Length == NumPairs(g.nrClass) && nz.Length == |x| && pA != pB
    requires pA.Length == pB.Length == if param.probability then NumPairs(g.nrClass) else 0
    requires TrainedBelow(f[..], x, g, wc, param, coll, PairIndex(i, j, g.nrClass))
    requires param.probability ==> CalibratedBelow(pA[..], pB[..], x, g, wc, param, coll, PairIndex(i, j, g.nrClass))
    requires forall t | 0 <= t < |x| :: nz[t] == SupportBelow(f[..], g, PairIndex(i, j, g.nrClass), t)
    modifies f, pA, pB, nz
    ensures TrainedBelow(f[..], x, g, wc, param, coll, PairIndex(i, j, g.nrClass) + 1)
    ensures param.probability ==> CalibratedBelow(pA[..], pB[..], x, g, wc, param, coll, PairIndex(i, j, g.nrClass) + 1)
    ensures forall t | 0 <= t < |x| :: nz[t] == SupportBelow(f[..], g, PairIndex(i, j, g.nrClass) + 1, t)
  {
    var p := PairIndex(i, j, g.nrClass);
    var sub := BuildSubProblem(x, g, i, j);
    if param.probability {
      var (a, b) := coll.binaryProbability(sub, param, wc[i], wc[j]);
      CalibratedStep(pA[..], pB[..], a, b, x, g, wc, param, coll, i, j);
      pA[p] := a;
      pB[p] := b;
      assert pA[..] == old(pA[..])[p := a];
    }
    var d := coll.trainOne(sub, param, wc[i], wc[j]);
    TrainOneLength(coll, sub, param, wc[i], wc[j]);
    ghost var before := f[..];
    f[p] := d;
    TrainedStep(before, d, x, g, wc, param, coll, i, j);
    forall t | 0 <= t < |x|
      ensures SupportBelow(f[..], g, p + 1, t) == (SupportBelow(before, g, p, t) || Hits(d, g, i, j, t))
    {
      SupportStep(before, d, g, i, j, t);
    }
    MarkNonzero(nz, d, g, i, j);
  }

  /** Storing the decision of pair `(i, j)` at its slot extends the trained pairs by that pair. */
  lemma {:induction false} TrainedStep(fs: seq<Decision>, d: Decision, x: seq<Sample>, g: Grouping, wc: seq<real>,
                    param: Parameter, coll: Collaborators, i: nat, j: nat)
    requires GroupShape(g, |x|) && |wc| == g.nrClass && |fs| == NumPairs(g.nrClass) && i < j < g.nrClass
    requires TrainedBelow(fs, x, g, wc, param, coll, PairIndex(i, j, g.nrClass))
    requires d == coll.trainOne(SubProblem(x, g, i, j), param, wc[i], wc[j])
    ensures TrainedBelow(fs[PairIndex(i, j, g.nrClass) := d], x, g, wc, param, coll, PairIndex(i, j, g.nrClass) + 1)
  {
    var K := g.nrClass;
    var p := PairIndex(i, j, K);
    forall a, b | 0 <= a < b < K && PairIndex(a, b, K) < p + 1
      ensures fs[p := d][PairIndex(a, b, K)] == coll.trainOne(SubProblem(x, g, a, b), param, wc[a], wc[b])
    {
      if PairIndex(a, b, K) == p {
        PairIndexInjective(a, b, i, j, K);
      }
    }
  }

  /** Storing the calibration of pair `(i, j)` at its slot extends the calibrated pairs by that pair. */
  lemma {:induction false} CalibratedStep(pa: seq<real>, pb: seq<real>, a: real, b: real, x: seq<Sample>, g: Grouping, wc: seq<real>,
                       param: Parameter, coll: Collaborators, i: nat, j: nat)
    requires GroupShape(g, |x|) && |wc| == g.nrClass && |pa| == |pb| == NumPairs(g.nrClass) && i < j < g.nrClass
    requires CalibratedBelow(pa, pb, x, g, wc, param, coll, PairIndex(i, j, g.nrClass))
    requires (a, b) == coll.binaryProbability(SubProblem(x, g, i, j), param, wc[i], wc[j])
    ensures var p := PairIndex(i, j, g.nrClass);
      CalibratedBelow(pa[p := a], pb[p := b], x, g, wc, param, coll, p + 1)
  {
    var K := g.nrClass;
    var p := PairIndex(i, j, K);
    forall u, v | 0 <= u < v < K && PairIndex(u, v, K) < p + 1
      ensures (pa[p := a][PairIndex(u, v, K)], pb[p := b][PairIndex(u, v, K)])
           == coll.binaryProbability(SubProblem(x, g, u, v), param, wc[u], wc[v])
    {
      if PairIndex(u, v, K) == p {
        PairIndexInjective(u, v, i, j, K);
      }
    }
  }
}
