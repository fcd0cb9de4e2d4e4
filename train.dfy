/**
 * The training orchestrator `svm_train_qt`: one decision function for
 * regression and one-class problems, one classifier per pair of classes
 * for classification, assembled into a model.
 */
module Train {
  import opened Wrappers
  import opened Sequences
  import opened SvmTypes
  import opened PairOrder
  import opened ClassRuns
  import opened WeightedC
  import opened Pairwise
  import opened Assembler
  import opened Coefficients

  // ---------------------------------------------------------------------
  // Regression and one-class path
  // ---------------------------------------------------------------------

  /** The flags of the nonzero coefficients: the test `fabs(alpha[i]) > 0`. */
  function NonzeroFlags(alpha: seq<real>): (f: seq<bool>)
    ensures |f| == |alpha|
    ensures forall i | 0 <= i < |alpha| :: f[i] == (alpha[i] != 0.0)
  {
    seq(|alpha|, i requires 0 <= i < |alpha| => alpha[i] != 0.0)
  }

  /** The positions `0, 1, ..., l - 1`: the original order, with no grouping. */
  function Identity(l: nat): (ids: seq<nat>)
    ensures |ids| == l
    ensures forall i | 0 <= i < l :: ids[i] == i
  {
    seq(l, i requires 0 <= i < l => i)
  }

  /**
   * The two compaction loops of the single-function path: count the nonzero
   * coefficients, then copy, in the original order, each such sample, its
   * coefficient and its 1-based index.
   */
  method CompactSingle(x: seq<Sample>, alpha: seq<real>)
    returns (nSV: nat, sv: seq<Sample>, coef: seq<real>, svIndices: seq<int>)
    requires |x| == |alpha|
    ensures nSV == CountTrue(NonzeroFlags(alpha))
    ensures sv == Select(x, NonzeroFlags(alpha))
    ensures coef == Select(alpha, NonzeroFlags(alpha))
    ensures svIndices == Select(OneBased(Identity(|x|)), NonzeroFlags(alpha))
  {
    ghost var fl := NonzeroFlags(alpha);
    ghost var ids := OneBased(Identity(|x|));
    assert fl[..|x|] == fl;
    assert x[..|x|] == x;
    assert alpha[..|x|] == alpha;
    assert ids[..|x|] == ids;
    nSV := 0;
    for i := 0 to |x|
      invariant nSV == CountTrue(fl[..i])
    {
      CountTrueStep(fl, i);
      if alpha[i] != 0.0 {
        nSV := nSV + 1;
      }
    }
    sv, coef, svIndices := [], [], [];
    for i := 0 to |x|
      invariant sv == Select(x[..i], fl[..i])
      invariant coef == Select(alpha[..i], fl[..i])
      invariant svIndices == Select(ids[..i], fl[..i])
    {
      SelectStep(x, fl, i);
      SelectStep(alpha, fl, i);
      SelectStep(ids, fl, i);
      if alpha[i] != 0.0 {
        sv := sv + [x[i]];
        coef := coef + [alpha[i]];
        svIndices := svIndices + [i + 1];
      }
    }
  }

  /**
   * The model of the single-function path, given the decision `f` trained
   * on the whole problem with both constants 0: the placeholder class count
   * 2, no labels and no per-class counts, the one threshold, and the
   * samples with a nonzero coefficient in original order with those
   * coefficients as the single row and their 1-based indices. `probA` holds
   * the regression calibration when probability estimates are requested
   * for a regression type; the density marks are attached only when
   * one-class calibration, handed the model built so far, reports success.
   */
  ghost predicate SingleModel(prob: Problem, param: Parameter, coll: Collaborators, model: SvmModel)
    requires coll.Valid()
  {
    var f := coll.trainOne(prob, param, 0.0, 0.0);
    var fl := NonzeroFlags(f.alpha);
    && |f.alpha| == |prob.x|
    && model.param == param
    && model.freeSv == 0
    && model.nrClass == 2
    && model.labels == None
    && model.nSV == None
    && model.rho == [f.rho]
    && model.l == CountTrue(fl)
    && model.sv == Select(prob.x, fl)
    && model.svCoef == [Select(f.alpha, fl)]
    && model.svIndices == Select(OneBased(Identity(|prob.x|)), fl)
    && model.probB == None
    && model.probA == (if param.probability && param.svmType != ONE_CLASS
                       then Some([coll.svrProbability(prob, param)]) else None)
    && var cal := coll.oneClassProbability(prob, param, model.(probDensityMarks := None));
       model.probDensityMarks == (if param.probability && param.svmType == ONE_CLASS && cal.status == 0
                                  then Some(cal.marks) else None)
  }

  /** The single-function path of `svm_train_qt`. */
  method TrainSingle(prob: Problem, param: Parameter, coll: Collaborators) returns (model: SvmModel)
    requires param.svmType.IsSingleFunction() && coll.Valid()
    ensures SingleModel(prob, param, coll, model)
  {
    var f := coll.trainOne(prob, param, 0.0, 0.0);
    TrainOneLength(coll, prob, param, 0.0, 0.0);
    var nSV, sv, coef, svIndices := CompactSingle(prob.x, f.alpha);
    model := SvmModel(param, 2, nSV, sv, [coef], [f.rho], None, None, None, svIndices, None, None, 0);
    if param.probability && (param.svmType == EPSILON_SVR || param.svmType == NU_SVR) {
      model := model.(probA := Some([coll.svrProbability(prob, param)]));
    } else if param.probability && param.svmType == ONE_CLASS {
      var cal := coll.oneClassProbability(prob, param, model);
      if cal.status == 0 {
        model := model.(probDensityMarks := Some(cal.marks));
      }
    }
  }

  /**
   * What the single-function model holds: `l` support vectors, each with
   * its coefficient and its index; the indices are strictly increasing and
   * lie in `[1, l]`; support vector `k` is original sample
   * `svIndices[k] - 1` and its coefficient is that sample's nonzero
   * coefficient.
   */
  lemma {:induction false} SingleSupport(prob: Problem, param: Parameter, coll: Collaborators, model: SvmModel, k: nat)
    requires coll.Valid() && SingleModel(prob, param, coll, model)
    requires k < model.l
    ensures |model.sv| == |model.svIndices| == model.l && |model.svCoef| == 1 && |model.svCoef[0]| == model.l
    ensures var alpha := coll.trainOne(prob, param, 0.0, 0.0).alpha;
      var i := model.svIndices[k] - 1;
      && 0 <= i < |prob.x|
      && model.sv[k] == prob.x[i]
      && model.svCoef[0][k] == alpha[i] != 0.0
    ensures forall k2 | k < k2 < model.l :: model.svIndices[k] < model.svIndices[k2]
  {
    var alpha := coll.trainOne(prob, param, 0.0, 0.0).alpha;
    var fl := NonzeroFlags(alpha);
    var ps := Positions(fl);
    PositionsSorted(fl);
    assert model.svIndices[k] == ps[k] + 1;
    forall k2 | k < k2 < model.l
      ensures model.svIndices[k] < model.svIndices[k2]
    {
      assert model.svIndices[k2] == ps[k2] + 1;
    }
  }

  /** Every sample with a nonzero coefficient is kept: its 1-based index is listed. */
  lemma {:induction false} SingleComplete(prob: Problem, param: Parameter, coll: Collaborators, model: SvmModel, i: nat)
    requires coll.Valid() && SingleModel(prob, param, coll, model)
    requires i < |prob.x| && coll.trainOne(prob, param, 0.0, 0.0).alpha[i] != 0.0
    ensures i + 1 in model.svIndices
  {
    var fl := NonzeroFlags(coll.trainOne(prob, param, 0.0, 0.0).alpha);
    PositionsAtRank(fl, i);
    assert model.svIndices[CountTrue(fl[..i])] == i + 1;
  }

  // ---------------------------------------------------------------------
  // Classification path
  // ---------------------------------------------------------------------

  /** The constant of every class after the overrides, as the weighted-C loops leave them. */
  function WeightedConstants(C: real, labels: seq<int>, weightLabel: seq<int>, weight: seq<real>): (wc: seq<real>)
    requires |weightLabel| == |weight|
    ensures |wc| == |labels|
    ensures forall c | 0 <= c < |labels| :: wc[c] == ClassConstant(C, labels, c, weightLabel, weight)
  {
    seq(|labels|, c requires 0 <= c < |labels| => ClassConstant(C, labels, c, weightLabel, weight))
  }

  /** The support flags: grouped sample `t` is flagged when some pair gives it a nonzero coefficient. */
  ghost function SupportFlags(fs: seq<Decision>, g: Grouping, l: nat): (nonzero: seq<bool>)
    requires |g.start| == |g.count| == g.nrClass && |fs| == NumPairs(g.nrClass)
    ensures |nonzero| == l
    ensures forall t | 0 <= t < l :: nonzero[t] == IsSupport(fs, g, t)
  {
    seq(l, t requires 0 <= t < l => IsSupport(fs, g, t))
  }

  /** The thresholds of the decisions, slot by slot. */
  function Thresholds(fs: seq<Decision>): (rho: seq<real>)
    ensures |rho| == |fs|
    ensures forall p | 0 <= p < |fs| :: rho[p] == fs[p].rho
  {
    seq(|fs|, p requires 0 <= p < |fs| => fs[p].rho)
  }

  /**
   * The support vectors of a classification model over the original samples
   * `xs`, grouped by `g`, with support flags `nonzero`: per-class counts,
   * their total as `l`, the flagged samples in grouped order and their
   * 1-based original indices.
   */
  predicate SupportListed(xs: seq<Sample>, g: Grouping, nonzero: seq<bool>, model: SvmModel)
    requires GroupShape(g, |xs|) && |nonzero| == |xs|
  {
    && model.nSV == Some(ClassCounts(nonzero, g))
    && model.l == CountTrue(nonzero)
    && model.sv == Select(Permute(xs, g.perm), nonzero)
    && model.svIndices == Select(OneBased(g.perm), nonzero)
  }

  /**
   * The coefficient rows of a classification model: `nrClass - 1` rows of
   * `CountTrue(nonzero)` entries, and in each row every support vector's
   * column holds the coefficient of the pair that owns the cell.
   */
  ghost predicate CoefficientsPlaced(fs: seq<Decision>, g: Grouping, nonzero: seq<bool>, model: SvmModel)
    requires GroupShape(g, |nonzero|) && |fs| == NumPairs(g.nrClass) && AlphaShaped(fs, g)
  {
    && IsMatrix(model.svCoef, g.nrClass - 1, CountTrue(nonzero))
    && forall r, t | 0 <= r < g.nrClass - 1 && 0 <= t < |nonzero| && nonzero[t] ::
         model.svCoef[r][Rank(nonzero, t)] == ExpectedCoef(fs, g, nonzero, r, t)
  }

  /**
   * The model of the classification path, given the grouping `g` of the
   * problem, the samples `x` in grouped order and the per-class constants
   * `wc`: `fs` holds, at the slot of each pair `(i, j)`, the decision
   * trained on that pair's sub-problem; the model carries the class count,
   * the labels, one threshold per pair and, when probability estimates are
   * requested, one calibration per pair; its support vectors are listed as
   * `SupportListed` says and its coefficient rows filled as
   * `CoefficientsPlaced` says, both over the support flags of `fs`.
   */
  ghost predicate ClassificationModel(prob: Problem, param: Parameter, coll: Collaborators, model: SvmModel,
                                      fs: seq<Decision>)
    requires |prob.x| == |prob.y| && |prob.x| > 0 && |param.weightLabel| == |param.weight| && coll.Valid()
  {
    var g := coll.groupClasses(prob);
    var x := Permute(prob.x, g.perm);
    var wc := WeightedConstants(param.C, g.labels, param.weightLabel, param.weight);
    && PairsTrained(fs, x, g, wc, param, coll)
    && AlphaShaped(fs, g)
    && model.param == param
    && model.freeSv == 0
    && model.nrClass == g.nrClass
    && model.labels == Some(g.labels)
    && model.rho == Thresholds(fs)
    && model.probA.Some? == model.probB.Some? == param.probability
    && (param.probability ==> PairsCalibrated(model.probA.value, model.probB.value, x, g, wc, param, coll))
    && model.probDensityMarks == None
    && SupportListed(prob.x, g, SupportFlags(fs, g, |x|), model)
    && CoefficientsPlaced(fs, g, SupportFlags(fs, g, |x|), model)
  }

  /** The classification path of `svm_train_qt`. */
  method TrainClassification(prob: Problem, param: Parameter, coll: Collaborators)
    returns (model: SvmModel, fs: seq<Decision>)
    requires |prob.x| == |prob.y| && |prob.x| > 0 && coll.Valid()
    requires |param.weightLabel| == |param.weight|
    ensures ClassificationModel(prob, param, coll, model, fs)
  {
    var g := coll.groupClasses(prob);
    var x := GatherGrouped(prob.x, g.perm);
    var wc := ComputeWeightedC(param.C, g.labels, param.weightLabel, param.weight);
    assert wc == WeightedConstants(param.C, g.labels, param.weightLabel, param.weight);
    var probA, probB, nonzero;
    fs, probA, probB, nonzero := TrainPairs(x, g, wc, param, coll);
    TrainedShaped(fs, x, g, wc, param, coll);
    assert nonzero == SupportFlags(fs, g, |x|);
    var rho := CopyThresholds(fs);
    var nSV, total := CountSupport(nonzero, g);
    var sv, svIndices := CompactSupport(x, g.perm, nonzero);
    var nzStart := ColumnStarts(nSV);
    var svCoef := ScatterCoefficients(fs, g, nonzero, nzStart);
    model := SvmModel(param, g.nrClass, total, sv, svCoef, rho, probA, probB, None, svIndices,
                      Some(g.labels), Some(nSV), 0);
  }

  /** The loop copying each pair's threshold into the model. */
  method CopyThresholds(fs: seq<Decision>) returns (rho: seq<real>)
    ensures rho == Thresholds(fs)
  {
    rho := [];
    for p := 0 to |fs|
      invariant rho == Thresholds(fs[..p])
    {
      assert fs[..p + 1] == fs[..p] + [fs[p]];
      rho := rho + [fs[p].rho];
    }
    assert fs[..|fs|] == fs;
  }

  /**
   * `svm_train_qt`: the single-function path for one-class and regression
   * types, the pairwise path otherwise. Classification needs at least one
   * sample and override arrays of equal length.
   */
  method TrainQt(prob: Problem, param: Parameter, coll: Collaborators) returns (model: SvmModel, ghost fs: seq<Decision>)
    requires |prob.x| == |prob.y| && coll.Valid()
    requires !param.svmType.IsSingleFunction() ==> |prob.x| > 0 && |param.weightLabel| == |param.weight|
    ensures param.svmType.IsSingleFunction() ==> SingleModel(prob, param, coll, model)
    ensures !param.svmType.IsSingleFunction() ==> ClassificationModel(prob, param, coll, model, fs)
  {
    if param.svmType.IsSingleFunction() {
      model := TrainSingle(prob, param, coll);
      fs := [];
    } else {
      var decisions;
      model, decisions := TrainClassification(prob, param, coll);
      fs := decisions;
    }
  }

  /**
   * The support-vector totals agree: the per-class counts sum to `l`, which
   * is the number of listed support vectors and of listed indices; class
   * `c`'s count is the number of flagged samples in its run.
   */
  lemma {:induction false} ClassificationCounts(xs: seq<Sample>, g: Grouping, nonzero: seq<bool>, model: SvmModel)
    requires GroupShape(g, |xs|) && |nonzero| == |xs| && SupportListed(xs, g, nonzero, model)
    ensures model.nSV.Some? && |model.nSV.value| == g.nrClass
    ensures PrefixSum(model.nSV.value, g.nrClass) == model.l == |model.sv| == |model.svIndices|
    ensures forall c | 0 <= c < g.nrClass :: model.nSV.value[c] == CountTrue(ClassFlags(nonzero, g, c))
  {
    ClassCountsTotal(nonzero, g);
  }

  /**
   * Support vector `k` of the classification model is original sample
   * `svIndices[k] - 1`, that index lies in `[1, l]`, and no original
   * sample is listed twice.
   */
  lemma {:induction false} ClassificationProvenance(xs: seq<Sample>, g: Grouping, nonzero: seq<bool>, model: SvmModel, k: nat)
    requires GroupShape(g, |xs|) && |nonzero| == |xs| && SupportListed(xs, g, nonzero, model)
    requires k < model.l
    ensures 1 <= model.svIndices[k] <= |xs|
    ensures model.sv[k] == xs[model.svIndices[k] - 1]
    ensures Distinct(model.svIndices)
  {
    var ids := OneBased(g.perm);
    assert Distinct(ids);
    SelectDistinct(ids, nonzero);
  }

  /**
   * Every cell of the coefficient matrix is written: column `c` of row `r`
   * belongs to exactly one support vector `t`, and holds the coefficient
   * that `t` receives for that row from the one pair owning the cell.
   */
  lemma {:induction false} EveryCellWritten(fs: seq<Decision>, g: Grouping, nonzero: seq<bool>, model: SvmModel, r: nat, c: nat)
    requires GroupShape(g, |nonzero|) && |fs| == NumPairs(g.nrClass) && AlphaShaped(fs, g)
    requires CoefficientsPlaced(fs, g, nonzero, model)
    requires r + 1 < g.nrClass && c < CountTrue(nonzero)
    ensures exists t | 0 <= t < |nonzero| && nonzero[t] && Rank(nonzero, t) == c ::
        && model.svCoef[r][c] == ExpectedCoef(fs, g, nonzero, r, t)
        && forall t2 | 0 <= t2 < |nonzero| && nonzero[t2] && Rank(nonzero, t2) == c :: t2 == t
  {
    RankOnto(nonzero, c);
    var t :| 0 <= t < |nonzero| && nonzero[t] && CountTrue(nonzero[..t]) == c;
    assert Rank(nonzero, t) == c;
    forall t2 | 0 <= t2 < |nonzero| && nonzero[t2] && Rank(nonzero, t2) == c
      ensures t2 == t
    {
      if t2 < t {
        RankMonotone(nonzero, t2, t);
      } else if t < t2 {
        RankMonotone(nonzero, t, t2);
      }
    }
  }
}
