/**
 * Building the classification model from the pairwise decisions: the
 * support-vector count of each class, the compacted support vectors with
 * their 1-based original indices, the start of each class's block of
 * columns, and the scatter of every pair's coefficients into the
 * `nrClass - 1` coefficient rows.
 */
module Assembler {
  import opened SvmTypes
  import opened Sequences
  import opened PairOrder
  import opened ClassRuns
  import opened Pairwise

  /** The number of flagged samples of each class: `nSV[m]` of the model. */
  function ClassCounts(nonzero: seq<bool>, g: Grouping): seq<nat>
    requires GroupShape(g, |nonzero|)
  {
    seq(g.nrClass, m requires 0 <= m < g.nrClass => CountTrue(ClassFlags(nonzero, g, m)))
  }

  /**
   * Summing the class counts of the first `m` classes counts the flags of
   * the first `m` runs.
   */
  lemma {:induction false} ClassCountsPrefix(nonzero: seq<bool>, g: Grouping, m: nat)
    requires GroupShape(g, |nonzero|) && m <= g.nrClass
    ensures PrefixSum(g.count, m) <= |nonzero|
    ensures PrefixSum(ClassCounts(nonzero, g), m) == CountTrue(nonzero[..PrefixSum(g.count, m)])
  {
    if m == 0 {
      PrefixSumMono(g.count, 0, g.nrClass);
      assert nonzero[..0] == [];
    } else {
      var n := m - 1;
      ClassCountsPrefix(nonzero, g, n);
      RunWithin(g, |nonzero|, n);
      assert PrefixSum(g.count, m) == g.start[n] + g.count[n];
      CountTrueSplit(nonzero, g.start[n], g.start[n] + g.count[n]);
      assert ClassFlags(nonzero, g, n) == nonzero[g.start[n]..g.start[n] + g.count[n]];
    }
  }

  /** The class counts add up to the number of flagged samples. */
  lemma {:induction false} ClassCountsTotal(nonzero: seq<bool>, g: Grouping)
    requires GroupShape(g, |nonzero|)
    ensures PrefixSum(ClassCounts(nonzero, g), g.nrClass) == CountTrue(nonzero)
  {
    ClassCountsPrefix(nonzero, g, g.nrClass);
    assert nonzero[..|nonzero|] == nonzero;
  }

  /** The counting loops: per class the flagged samples of its run, and the running total. */
  method CountSupport(nonzero: seq<bool>, g: Grouping) returns (nSV: seq<nat>, total: nat)
    requires GroupShape(g, |nonzero|)
    ensures nSV == ClassCounts(nonzero, g)
    ensures total == CountTrue(nonzero)
  {
    nSV, total := [], 0;
    for i := 0 to g.nrClass
      invariant nSV == ClassCounts(nonzero, g)[..i]
      invariant total == PrefixSum(ClassCounts(nonzero, g), i)
    {
      var n := CountRun(nonzero, g, i);
      ClassCountsStep(nonzero, g, i);
      nSV := nSV + [n];
      total := total + n;
    }
    ClassCountsTotal(nonzero, g);
  }

  /** Extending the counted classes by class `i` appends its count and adds it to the running total. */
  lemma {:induction false} ClassCountsStep(nonzero: seq<bool>, g: Grouping, i: nat)
    requires GroupShape(g, |nonzero|) && i < g.nrClass
    ensures var cc := ClassCounts(nonzero, g);
      && cc[..i + 1] == cc[..i] + [cc[i]]
      && PrefixSum(cc, i + 1) == PrefixSum(cc, i) + cc[i]
      && (i + 1 == g.nrClass ==> cc[..i + 1] == cc)
  {
  }

  /** The inner counting loop over the run of class `c`. */
  method CountRun(nonzero: seq<bool>, g: Grouping, c: nat) returns (n: nat)
    requires GroupShape(g, |nonzero|) && c < g.nrClass
    ensures n == ClassCounts(nonzero, g)[c]
  {
    ghost var fl := ClassFlags(nonzero, g, c);
    n := 0;
    for j := 0 to g.count[c]
      invariant n == CountTrue(fl[..j])
    {
      CountTrueStep(fl, j);
      if nonzero[g.start[c] + j] {
        n := n + 1;
      }
    }
    assert fl[..g.count[c]] == fl;
  }

  /** The 1-based original index of each grouped position. */
  function OneBased(perm: seq<nat>): (ids: seq<int>)
    ensures |ids| == |perm|
  {
    seq(|perm|, t requires 0 <= t < |perm| => perm[t] + 1)
  }

  /** The compaction loop: the flagged grouped samples and their 1-based original indices, in grouped order. */
  method CompactSupport(x: seq<Sample>, perm: seq<nat>, nonzero: seq<bool>)
    returns (sv: seq<Sample>, svIndices: seq<int>)
    requires |x| == |perm| == |nonzero|
    ensures sv == Select(x, nonzero)
    ensures svIndices == Select(OneBased(perm), nonzero)
  {
    var ids := OneBased(perm);
    assert x[..|x|] == x;
    assert ids[..|x|] == ids;
    assert nonzero[..|x|] == nonzero;
    sv, svIndices := [], [];
    for i := 0 to |x|
      invariant sv == Select(x[..i], nonzero[..i])
      invariant svIndices == Select(ids[..i], nonzero[..i])
    {
      SelectStep(x, nonzero, i);
      SelectStep(ids, nonzero, i);
      if nonzero[i] {
        sv := sv + [x[i]];
        svIndices := svIndices + [perm[i] + 1];
        assert ids[i] == perm[i] + 1;
      }
    }
  }

  /** The loop computing `nz_start`: each class's first column, the sum of the earlier classes' counts. */
  method ColumnStarts(nSV: seq<nat>) returns (nzStart: seq<nat>)
    requires |nSV| >= 1
    ensures |nzStart| == |nSV|
    ensures forall m | 0 <= m < |nSV| :: nzStart[m] == PrefixSum(nSV, m)
  {
    var a := new nat[|nSV|];
    a[0] := 0;
    for i := 1 to |nSV|
      invariant forall m | 0 <= m < i :: a[m] == PrefixSum(nSV, m)
    {
      a[i] := a[i - 1] + nSV[i - 1];
      assert a[i] == PrefixSum(nSV, i);
    }
    nzStart := a[..];
  }
}
