/**
 * Per-class regularisation: every class starts at the base constant C, and
 * each weight override multiplies the constant of the first class carrying
 * its label; an override whose label is no class label is skipped.
 */
module WeightedC {
  import opened Sequences

  /** The first class whose label is `v`, or `|labels|` when there is none. */
  function FirstMatch(labels: seq<int>, v: int): (j: nat)
    ensures j <= |labels|
    ensures j < |labels| ==> labels[j] == v
    ensures forall k | 0 <= k < j :: labels[k] != v
  {
    if labels == [] then 0
    else if labels[0] == v then 0
    else 1 + FirstMatch(labels[1..], v)
  }

  /**
   * The constant of class `c` after the overrides `weightLabel`/`weight`
   * have been applied in list order, starting from `C`.
   */
  function ClassConstant(C: real, labels: seq<int>, c: nat, weightLabel: seq<int>, weight: seq<real>): real
    requires |weightLabel| == |weight|
  {
    if weightLabel == [] then C
    else
      var n := |weightLabel| - 1;
      var before := ClassConstant(C, labels, c, weightLabel[..n], weight[..n]);
      if FirstMatch(labels, weightLabel[n]) == c then before * weight[n] else before
  }

  /**
   * The weighted-C loops: set every class to C, then for each override find
   * the class with that label and scale its constant.
   */
  method ComputeWeightedC(C: real, labels: seq<int>, weightLabel: seq<int>, weight: seq<real>)
    returns (wc: seq<real>)
    requires |weightLabel| == |weight|
    ensures |wc| == |labels|
    ensures forall c | 0 <= c < |labels| :: wc[c] == ClassConstant(C, labels, c, weightLabel, weight)
  {
    var K := |labels|;
    var a := new real[K];
    for i := 0 to K
      invariant forall c | 0 <= c < i :: a[c] == C
    {
      a[i] := C;
    }
    for i := 0 to |weightLabel|
      invariant forall c | 0 <= c < K :: a[c] == ClassConstant(C, labels, c, weightLabel[..i], weight[..i])
    {
      var j := FindClass(labels, weightLabel[i]);
      ghost var before := a[..];
      if j < K {
        a[j] := a[j] * weight[i];
        assert a[j] == before[j] * weight[i];
        assert forall k | 0 <= k < K && k != j :: a[k] == before[k];
        assert a[..] == before[j := before[j] * weight[i]];
      }
      OverrideApplied(C, labels, weightLabel, weight, i, j, before, a[..]);
    }
    assert weightLabel[..|weightLabel|] == weightLabel;
    assert weight[..|weight|] == weight;
    wc := a[..];
  }

  /**
   * One pass of the override loop: scaling the constant of the class found
   * for override `i` (if any) turns the constants after `i` overrides into
   * those after `i + 1`.
   */
  lemma {:induction false} OverrideApplied(C: real, labels: seq<int>, weightLabel: seq<int>, weight: seq<real>, i: nat,
                                           j: nat, before: seq<real>, after: seq<real>)
    requires |weightLabel| == |weight| && i < |weightLabel| && |before| == |labels|
    requires forall c | 0 <= c < |labels| :: before[c] == ClassConstant(C, labels, c, weightLabel[..i], weight[..i])
    requires j == FirstMatch(labels, weightLabel[i])
    requires after == if j < |labels| then before[j := before[j] * weight[i]] else before
    ensures forall c | 0 <= c < |labels| :: after[c] == ClassConstant(C, labels, c, weightLabel[..i + 1], weight[..i + 1])
  {
    forall c | 0 <= c < |labels|
      ensures after[c] == ClassConstant(C, labels, c, weightLabel[..i + 1], weight[..i + 1])
    {
      ClassConstantStep(C, labels, c, weightLabel, weight, i);
    }
  }

  /** The inner search: the first class labelled `v`, or `|labels|` when none is. */
  method FindClass(labels: seq<int>, v: int) returns (j: nat)
    ensures j == FirstMatch(labels, v)
  {
    j := 0;
    while j < |labels|
      invariant 0 <= j <= |labels|
      invariant forall k | 0 <= k < j :: labels[k] != v
    {
      if v == labels[j] {
        break;
      }
      j := j + 1;
    }
  }

  /** Applying one more override of the list to class `c`. */
  lemma {:induction false} ClassConstantStep(C: real, labels: seq<int>, c: nat, weightLabel: seq<int>, weight: seq<real>, i: nat)
    requires |weightLabel| == |weight| && i < |weightLabel|
    ensures ClassConstant(C, labels, c, weightLabel[..i + 1], weight[..i + 1])
         == if FirstMatch(labels, weightLabel[i]) == c
            then ClassConstant(C, labels, c, weightLabel[..i], weight[..i]) * weight[i]
            else ClassConstant(C, labels, c, weightLabel[..i], weight[..i])
  {
    assert weightLabel[..i + 1][..i] == weightLabel[..i];
    assert weight[..i + 1][..i] == weight[..i];
  }

  /** The constant C scaled by every override whose label is `v`, in list order. */
  function LabelConstant(C: real, v: int, weightLabel: seq<int>, weight: seq<real>): real
    requires |weightLabel| == |weight|
  {
    if weightLabel == [] then C
    else
      var n := |weightLabel| - 1;
      var before := LabelConstant(C, v, weightLabel[..n], weight[..n]);
      if weightLabel[n] == v then before * weight[n] else before
  }

  /**
   * With distinct class labels (as grouping produces them), class `c`
   * receives exactly the overrides whose label is its own label, several of
   * them compounding in list order.
   */
  lemma {:induction false} ClassConstantByLabel(C: real, labels: seq<int>, c: nat, weightLabel: seq<int>, weight: seq<real>)
    requires Distinct(labels) && c < |labels| && |weightLabel| == |weight|
    ensures ClassConstant(C, labels, c, weightLabel, weight) == LabelConstant(C, labels[c], weightLabel, weight)
    decreases |weightLabel|
  {
    if weightLabel != [] {
      var n := |weightLabel| - 1;
      ClassConstantByLabel(C, labels, c, weightLabel[..n], weight[..n]);
      var j := FirstMatch(labels, weightLabel[n]);
      assert (j == c) == (weightLabel[n] == labels[c]);
    }
  }

  /** An override whose label is no class label changes no class's constant. */
  lemma {:induction false} UnknownOverrideIgnored(C: real, labels: seq<int>, c: nat, weightLabel: seq<int>, weight: seq<real>, v: int, factor: real)
    requires |weightLabel| == |weight| && c < |labels| && v !in labels
    ensures ClassConstant(C, labels, c, weightLabel + [v], weight + [factor])
         == ClassConstant(C, labels, c, weightLabel, weight)
  {
    assert (weightLabel + [v])[..|weightLabel|] == weightLabel;
    assert (weight + [factor])[..|weight|] == weight;
    assert FirstMatch(labels, v) == |labels|;
  }

  /** A single override `(labels[c], m)` scales class `c` by `m` and leaves every other class at C. */
  lemma {:induction false} SingleOverride(C: real, labels: seq<int>, c: nat, d: nat, m: real)
    requires Distinct(labels) && c < |labels| && d < |labels|
    ensures ClassConstant(C, labels, d, [labels[c]], [m]) == if d == c then C * m else C
  {
    assert [labels[c]][..0] == [];
    assert [m][..0] == [];
    assert FirstMatch(labels, labels[c]) == c;
  }

  /** Overrides whose labels all differ from the class's label leave it at C. */
  lemma {:induction false} ForeignOverridesIgnored(C: real, labels: seq<int>, c: nat, weightLabel: seq<int>, weight: seq<real>)
    requires Distinct(labels) && c < |labels| && |weightLabel| == |weight|
    requires forall k | 0 <= k < |weightLabel| :: weightLabel[k] != labels[c]
    ensures ClassConstant(C, labels, c, weightLabel, weight) == C
    decreases |weightLabel|
  {
    if weightLabel != [] {
      var n := |weightLabel| - 1;
      ForeignOverridesIgnored(C, labels, c, weightLabel[..n], weight[..n]);
      assert FirstMatch(labels, weightLabel[n]) != c;
    }
  }
}
