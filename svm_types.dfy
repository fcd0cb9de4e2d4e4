/** The optional value used where a field of the C structures may be NULL. */
module Wrappers {
  datatype Option<+T> = None | Some(value: T)
}

/**
 * The data types of the kernel-machine library that the training
 * orchestrator reads and fills, and the contracts of the library routines
 * it calls but does not implement (class grouping, the binary solver and
 * the probability calibrators).
 */
module SvmTypes {
  import opened Wrappers
  import opened Sequences

  /** One feature of a sparse sample; an index of -1 terminates a sample. */
  datatype Node = Node(index: int, value: real)

  /** A sample: its feature nodes, terminator included. */
  type Sample = seq<Node>

  /** A training problem: `l == |x| == |y|` samples with their labels. */
  datatype Problem = Problem(x: seq<Sample>, y: seq<real>)

  datatype SvmType = C_SVC | NU_SVC | ONE_CLASS | EPSILON_SVR | NU_SVR
  {
    /** The types trained by the single-function path (regression and one-class). */
    predicate IsSingleFunction()
    {
      this == ONE_CLASS || this == EPSILON_SVR || this == NU_SVR
    }
  }

  /**
   * The training parameters the orchestrator reads. `weightLabel` and
   * `weight` are the two parallel override arrays of `nr_weight` entries;
   * kernel settings are opaque here and only passed through.
   */
  datatype Parameter = Parameter(
    svmType: SvmType,
    C: real,
    probability: bool,
    weightLabel: seq<int>,
    weight: seq<real>)

  /** The result of one binary training call: one coefficient per sample, and the threshold. */
  datatype Decision = Decision(alpha: seq<real>, rho: real)

  /**
   * The result of class grouping: `nrClass` classes with their labels; class
   * `c` occupies positions `[start[c], start[c] + count[c])` of the grouped
   * order, and `perm[t]` is the original index of grouped position `t`.
   */
  datatype Grouping = Grouping(
    nrClass: nat,
    labels: seq<int>,
    start: seq<nat>,
    count: seq<nat>,
    perm: seq<nat>)

  /** The outcome of one-class calibration: status 0 means the density marks are valid. */
  datatype Calibration = Calibration(status: int, marks: seq<real>)

  /**
   * The trained model. NULL fields of the C structure are `None`;
   * `svCoef` holds the coefficient rows (one row on the single-function
   * path, `nrClass - 1` rows for classification).
   */
  datatype SvmModel = SvmModel(
    param: Parameter,
    nrClass: int,
    l: nat,
    sv: seq<Sample>,
    svCoef: seq<seq<real>>,
    rho: seq<real>,
    probA: Option<seq<real>>,
    probB: Option<seq<real>>,
    probDensityMarks: Option<seq<real>>,
    svIndices: seq<int>,
    labels: Option<seq<int>>,
    nSV: Option<seq<nat>>,
    freeSv: int)

  /** The C cast `(int)v` of a double: truncation toward zero. */
  function Truncate(v: real): (n: int)
    ensures 0.0 <= v ==> 0 <= n && n as real <= v < n as real + 1.0
    ensures v < 0.0 ==> n <= 0 && n as real - 1.0 < v <= n as real
  {
    if v >= 0.0 then v.Floor else -((-v).Floor)
  }

  /** `perm` lists every index of `[0, l)` exactly once. */
  predicate IsPermutation(perm: seq<nat>, l: nat)
  {
    && |perm| == l
    && (forall t | 0 <= t < l :: perm[t] < l)
    && (forall t1, t2 | 0 <= t1 < t2 < l :: perm[t1] != perm[t2])
  }

  /**
   * The shape of a grouping of `l` samples: at least one class, distinct
   * labels, nonempty runs whose starts are the exclusive prefix sums of the
   * counts and which together cover `[0, l)`, and a permutation.
   */
  predicate GroupShape(g: Grouping, l: nat)
  {
    && g.nrClass >= 1
    && |g.labels| == |g.start| == |g.count| == g.nrClass
    && Distinct(g.labels)
    && (forall c {:trigger g.start[c]} | 0 <= c < g.nrClass :: g.start[c] == PrefixSum(g.count, c))
    && (forall c | 0 <= c < g.nrClass :: g.count[c] > 0)
    && PrefixSum(g.count, g.nrClass) == l
    && IsPermutation(g.perm, l)
  }

  /** A grouping of `prob`: its shape, and every sample of run `c` carries label `labels[c]`. */
  predicate IsGrouping(prob: Problem, g: Grouping)
  {
    && |prob.y| == |prob.x|
    && GroupShape(g, |prob.x|)
    && (forall c, t | 0 <= c < g.nrClass && g.start[c] <= t < g.start[c] + g.count[c] ::
          t < |g.perm| && g.perm[t] < |prob.y| && Truncate(prob.y[g.perm[t]]) == g.labels[c])
  }

  /**
   * The library routines the orchestrator calls. Each takes the training
   * parameters, which carry the kernel settings through to the solver.
   */
  datatype Collaborators = Collaborators(
    groupClasses: Problem -> Grouping,
    trainOne: (Problem, Parameter, real, real) -> Decision,
    binaryProbability: (Problem, Parameter, real, real) -> (real, real),
    svrProbability: (Problem, Parameter) -> real,
    oneClassProbability: (Problem, Parameter, SvmModel) -> Calibration)
  {
    /**
     * What the orchestrator relies on: grouping a nonempty problem yields a
     * grouping of it, the solver returns one coefficient per sample, and a
     * successful one-class calibration fills the ten density marks.
     */
    ghost predicate Valid()
    {
      && (forall prob: Problem | |prob.x| == |prob.y| && |prob.x| > 0 :: IsGrouping(prob, groupClasses(prob)))
      && (forall prob: Problem, param: Parameter, cp: real, cn: real :: |trainOne(prob, param, cp, cn).alpha| == |prob.x|)
      && (forall prob: Problem, param: Parameter, model: SvmModel ::
            oneClassProbability(prob, param, model).status == 0 ==>
            |oneClassProbability(prob, param, model).marks| == NrMarks)
    }
  }

  /** The solver's decision carries one coefficient per sample of the problem it was trained on. */
  lemma {:induction false} TrainOneLength(coll: Collaborators, prob: Problem, param: Parameter, cp: real, cn: real)
    requires coll.Valid()
    ensures |coll.trainOne(prob, param, cp, cn).alpha| == |prob.x|
  {
  }

  /** Number of density marks requested from the one-class calibrator. */
  const NrMarks: nat := 10
}
