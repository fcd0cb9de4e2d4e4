/**
 * Use of the class grouping by the classification path: the bounds of the
 * class runs, the grouped sample order `x[t] = prob.x[perm[t]]`, and the
 * flags of one class's run.
 */
module ClassRuns {
  import opened SvmTypes
  import opened Sequences

  /** Run `c` lies inside `[0, l)`, and an earlier run ends before a later one starts. */
  lemma {:induction false} RunWithin(g: Grouping, l: nat, c: nat)
    requires GroupShape(g, l) && c < g.nrClass
    ensures g.start[c] + g.count[c] <= l
    ensures forall d | c < d < g.nrClass :: g.start[c] + g.count[c] <= g.start[d]
  {
    RunsOrdered(g.count, c, g.nrClass);
    forall d | c < d < g.nrClass ensures g.start[c] + g.count[c] <= g.start[d] {
      RunsOrdered(g.count, c, d);
    }
  }

  /** The class whose run contains grouped position `t`. */
  function ClassOf(g: Grouping, l: nat, t: nat): (c: nat)
    requires GroupShape(g, l) && t < l
    ensures c < g.nrClass && g.start[c] <= t < g.start[c] + g.count[c]
  {
    var c := RunIndex(g.count, t);
    assert PrefixSum(g.count, c + 1) == g.start[c] + g.count[c];
    c
  }

  /** A position lies in one run only. */
  lemma {:induction false} ClassOfUnique(g: Grouping, l: nat, t: nat, c: nat)
    requires GroupShape(g, l) && c < g.nrClass && g.start[c] <= t < g.start[c] + g.count[c]
    ensures t < l && ClassOf(g, l, t) == c
  {
    assert PrefixSum(g.count, c + 1) == g.start[c] + g.count[c];
    RunIndexUnique(g.count, t, c);
  }

  /** The samples in grouped order: `x[t]` is the original sample `perm[t]`. */
  function Permute(xs: seq<Sample>, perm: seq<nat>): seq<Sample>
    requires forall t | 0 <= t < |perm| :: perm[t] < |xs|
  {
    seq(|perm|, t requires 0 <= t < |perm| => xs[perm[t]])
  }

  /** The loop that copies sample references into grouped order. */
  method GatherGrouped(xs: seq<Sample>, perm: seq<nat>) returns (x: seq<Sample>)
    requires IsPermutation(perm, |xs|)
    ensures x == Permute(xs, perm)
  {
    var l := |xs|;
    var a := new Sample[l];
    for i := 0 to l
      invariant forall t | 0 <= t < i :: a[t] == xs[perm[t]]
    {
      a[i] := xs[perm[i]];
    }
    x := a[..];
  }

  /**
   * Grouping only reorders: every original sample sits at exactly one
   * grouped position, the one whose `perm` entry is its index.
   */
  lemma {:induction false} PermuteReorders(xs: seq<Sample>, perm: seq<nat>, i: nat)
    requires IsPermutation(perm, |xs|) && i < |xs|
    ensures exists t | 0 <= t < |perm| :: perm[t] == i && Permute(xs, perm)[t] == xs[i]
    ensures forall t1, t2 | 0 <= t1 < t2 < |perm| :: !(perm[t1] == i && perm[t2] == i)
  {
    PermutationOnto(perm, |xs|, i);
  }

  /**
   * A permutation of `[0, l)` hits every index: an injection of `[0, l)`
   * into itself is onto (pigeonhole, by induction on `l`).
   */
  lemma {:induction false} PermutationOnto(perm: seq<nat>, l: nat, i: nat)
    requires IsPermutation(perm, l) && i < l
    ensures exists t | 0 <= t < l :: perm[t] == i
    decreases l
  {
    var top := l - 1;
    if t :| 0 <= t < l && perm[t] == top {
      if i != top {
        // drop the position holding the largest value; the rest is a permutation of [0, l - 1)
        var rest := perm[..t] + perm[t + 1..];
        assert forall u | 0 <= u < l - 1 :: rest[u] == perm[if u < t then u else u + 1];
        PermutationOnto(rest, l - 1, i);
        var u :| 0 <= u < l - 1 && rest[u] == i;
        assert perm[if u < t then u else u + 1] == i;
      }
    } else {
      // the largest value is missing: the first l - 1 entries would fill [0, l - 1) and the last repeat one
      PermutationOnto(perm[..top], top, perm[top]);
      assert false;
    }
  }

  /** The nonzero flags of class `m`'s run, in grouped order. */
  function ClassFlags(nonzero: seq<bool>, g: Grouping, m: nat): (fl: seq<bool>)
    requires GroupShape(g, |nonzero|) && m < g.nrClass
    ensures |fl| == g.count[m] && g.start[m] + g.count[m] <= |nonzero|
    ensures forall k | 0 <= k < g.count[m] :: fl[k] == nonzero[g.start[m] + k]
  {
    RunsOrdered(g.count, m, g.nrClass);
    nonzero[g.start[m]..g.start[m] + g.count[m]]
  }
}
