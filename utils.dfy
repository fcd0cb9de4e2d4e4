/**
 * The data helpers around training: `getData`, which turns dense rows
 * into libsvm's sparse node arrays (a bias node first, a `-1` terminator
 * last) and targets into truncated integers, and the confusion counting
 * of `classificationReport`.
 */
module Utils {
  import opened Sequences
  import opened SvmTypes

  /** The node array built for one row: the bias node, the first `n` features, the terminator. */
  function EncodeRow(row: seq<real>, n: nat): (s: Sample)
    requires n <= |row|
    ensures |s| == n + 2
  {
    [Node(1, 1.0)] + seq(n, j requires 0 <= j < n => Node(j + 2, row[j])) + [Node(-1, 0.0)]
  }

  /** The dense features a node array carries between its bias node and its terminator. */
  function DecodeRow(s: Sample): (row: seq<real>)
    requires |s| >= 2
    ensures |row| == |s| - 2
  {
    seq(|s| - 2, k requires 0 <= k < |s| - 2 => s[k + 1].value)
  }

  /**
   * A node array libsvm can read: it ends in the `-1` terminator, and every
   * node before it has a positive index, the indices strictly increasing.
   */
  predicate WellFormed(s: Sample)
  {
    && |s| > 0
    && s[|s| - 1].index == -1
    && (forall k | 0 <= k < |s| - 1 :: s[k].index >= 1)
    && (forall k1, k2 | 0 <= k1 < k2 < |s| - 1 :: s[k1].index < s[k2].index)
  }

  /** Every encoded row is well formed, starts with the bias node and numbers feature `j` as `j + 2`. */
  lemma {:induction false} EncodeWellFormed(row: seq<real>, n: nat)
    requires n <= |row|
    ensures WellFormed(EncodeRow(row, n))
    ensures EncodeRow(row, n)[0] == Node(1, 1.0)
    ensures EncodeRow(row, n)[n + 1] == Node(-1, 0.0)
    ensures forall j | 0 <= j < n :: EncodeRow(row, n)[j + 1] == Node(j + 2, row[j])
  {
    var s := EncodeRow(row, n);
    assert forall k | 1 <= k < n + 1 :: s[k] == Node(k + 1, row[k - 1]);
  }

  /** Decoding an encoded row gives back its first `n` features. */
  lemma {:induction false} EncodeRoundTrip(row: seq<real>, n: nat)
    requires n <= |row|
    ensures DecodeRow(EncodeRow(row, n)) == row[..n]
  {
    var s := EncodeRow(row, n);
    assert forall k | 0 <= k < n :: DecodeRow(s)[k] == s[k + 1].value == row[k];
  }

  /** `getData` on a matrix: one node array per row, in row order, each as wide as the first row. */
  method GetDataX(xRaw: seq<seq<real>>) returns (x: seq<Sample>)
    requires |xRaw| > 0
    requires forall i | 0 <= i < |xRaw| :: |xRaw[0]| <= |xRaw[i]|
    ensures |x| == |xRaw|
    ensures forall i | 0 <= i < |xRaw| :: x[i] == EncodeRow(xRaw[i], |xRaw[0]|)
  {
    var numFeatures := |xRaw[0]|;
    x := [];
    for i := 0 to |xRaw|
      invariant |x| == i
      invariant forall r | 0 <= r < i :: x[r] == EncodeRow(xRaw[r], numFeatures)
    {
      var node := new Node[numFeatures + 2];
      node[0] := Node(1, 1.0);
      for j := 0 to numFeatures
        invariant node[0] == Node(1, 1.0)
        invariant forall k | 1 <= k <= j :: node[k] == Node(k + 1, xRaw[i][k - 1])
      {
        node[j + 1] := Node(j + 2, xRaw[i][j]);
      }
      node[numFeatures + 1] := Node(-1, 0.0);
      EncodeWellFormed(xRaw[i], numFeatures);
      assert node[..] == EncodeRow(xRaw[i], numFeatures);
      x := x + [node[..]];
    }
  }

  /** `getData` on a column: the same values in the same order, each truncated to an integer. */
  method GetDataY(yRaw: seq<real>) returns (y: seq<real>)
    ensures |y| == |yRaw|
    ensures forall i | 0 <= i < |yRaw| :: y[i] == Truncate(yRaw[i]) as real
  {
    y := [];
    for i := 0 to |yRaw|
      invariant |y| == i
      invariant forall r | 0 <= r < i :: y[r] == Truncate(yRaw[r]) as real
    {
      y := y + [Truncate(yRaw[i]) as real];
    }
  }

  /** Truncating a value `getData` produced changes nothing: training groups by the same labels. */
  lemma {:induction false} TargetsKeepLabels(yRaw: seq<real>, y: seq<real>, i: nat)
    requires |y| == |yRaw| && i < |y|
    requires forall r | 0 <= r < |yRaw| :: y[r] == Truncate(yRaw[r]) as real
    ensures Truncate(y[i]) == Truncate(yRaw[i])
    ensures -1.0 < y[i] - yRaw[i] < 1.0
  {
    var n := Truncate(yRaw[i]);
    if n >= 0 {
      assert (n as real).Floor == n;
    } else {
      assert (-(n as real)).Floor == -n;
    }
  }

  /** The two inputs `getData` accepts. */
  datatype Data = Rows(xRaw: seq<seq<real>>) | Column(yRaw: seq<real>)

  /** The two results it returns, matching the input's alternative. */
  datatype Encoded = Features(x: seq<Sample>) | Targets(y: seq<real>)

  /**
   * `getData`: a matrix becomes node arrays (the bias node, feature `j` at
   * index `j + 2`, the terminator), a column becomes truncated targets.
   */
  method GetData(data: Data) returns (r: Encoded)
    requires data.Rows? ==> |data.xRaw| > 0
    requires data.Rows? ==> forall i | 0 <= i < |data.xRaw| :: |data.xRaw[0]| <= |data.xRaw[i]|
    ensures data.Rows? <==> r.Features?
    ensures data.Rows? ==> |r.x| == |data.xRaw|
    ensures data.Rows? ==> forall i | 0 <= i < |data.xRaw| :: r.x[i] == EncodeRow(data.xRaw[i], |data.xRaw[0]|)
    ensures data.Rows? ==> forall i | 0 <= i < |data.xRaw| ::
      |r.x[i]| == |data.xRaw[0]| + 2 && WellFormed(r.x[i]) && DecodeRow(r.x[i]) == data.xRaw[i][..|data.xRaw[0]|]
    ensures data.Rows? ==> forall i | 0 <= i < |data.xRaw| ::
      r.x[i][0] == Node(1, 1.0) && r.x[i][|data.xRaw[0]| + 1] == Node(-1, 0.0)
    ensures data.Rows? ==> forall i, j | 0 <= i < |data.xRaw| && 0 <= j < |data.xRaw[0]| ::
      r.x[i][j + 1] == Node(j + 2, data.xRaw[i][j])
    ensures data.Column? ==> |r.y| == |data.yRaw|
    ensures data.Column? ==> forall i | 0 <= i < |data.yRaw| :: r.y[i] == Truncate(data.yRaw[i]) as real
  {
    match data
    case Rows(xRaw) =>
      var x := GetDataX(xRaw);
      forall i | 0 <= i < |xRaw|
        ensures |x[i]| == |xRaw[0]| + 2 && WellFormed(x[i]) && DecodeRow(x[i]) == xRaw[i][..|xRaw[0]|]
        ensures x[i][0] == Node(1, 1.0) && x[i][|xRaw[0]| + 1] == Node(-1, 0.0)
        ensures forall j | 0 <= j < |xRaw[0]| :: x[i][j + 1] == Node(j + 2, xRaw[i][j])
      {
        EncodeWellFormed(xRaw[i], |xRaw[0]|);
        EncodeRoundTrip(xRaw[i], |xRaw[0]|);
      }
      r := Features(x);
    case Column(yRaw) =>
      var y := GetDataY(yRaw);
      r := Targets(y);
  }

  /** How many of the first `n` positions have truth `t` and prediction `p`. */
  function Hits(yTrue: seq<real>, yPred: seq<real>, t: real, p: real, n: nat): (c: nat)
    requires n <= |yTrue| && n <= |yPred|
    ensures c <= n
  {
    CountTrue(seq(n, i requires 0 <= i < n => yTrue[i] == t && yPred[i] == p))
  }

  /** A label the report understands: 0 or 1. */
  predicate IsBinary(v: real)
  {
    v == 0.0 || v == 1.0
  }

  /** How many of the first `n` positions have both truth and prediction in {0, 1}. */
  function BinaryPairs(yTrue: seq<real>, yPred: seq<real>, n: nat): (c: nat)
    requires n <= |yTrue| && n <= |yPred|
    ensures c <= n
  {
    CountTrue(seq(n, i requires 0 <= i < n => IsBinary(yTrue[i]) && IsBinary(yPred[i])))
  }

  /** Extending a prefix of `Hits` by one position. */
  lemma {:induction false} HitsStep(yTrue: seq<real>, yPred: seq<real>, t: real, p: real, n: nat)
    requires n < |yTrue| && n < |yPred|
    ensures Hits(yTrue, yPred, t, p, n + 1)
      == Hits(yTrue, yPred, t, p, n) + (if yTrue[n] == t && yPred[n] == p then 1 else 0)
  {
    var f := seq(n + 1, i requires 0 <= i < n + 1 => yTrue[i] == t && yPred[i] == p);
    assert f[..n] == seq(n, i requires 0 <= i < n => yTrue[i] == t && yPred[i] == p);
  }

  /** Extending a prefix of `BinaryPairs` by one position. */
  lemma {:induction false} BinaryPairsStep(yTrue: seq<real>, yPred: seq<real>, n: nat)
    requires n < |yTrue| && n < |yPred|
    ensures BinaryPairs(yTrue, yPred, n + 1)
      == BinaryPairs(yTrue, yPred, n) + (if IsBinary(yTrue[n]) && IsBinary(yPred[n]) then 1 else 0)
  {
    var f := seq(n + 1, i requires 0 <= i < n + 1 => IsBinary(yTrue[i]) && IsBinary(yPred[i]));
    assert f[..n] == seq(n, i requires 0 <= i < n => IsBinary(yTrue[i]) && IsBinary(yPred[i]));
  }

  /** The confusion counts of a report. */
  datatype Confusion = Confusion(tp: nat, fp: nat, tn: nat, fn: nat)

  /**
   * The counting loop of `classificationReport`: a position counts as a true
   * positive when both values are 1, a false positive when the prediction is 1
   * and the truth 0, a false negative the other way round, a true negative when
   * both are 0; any other position counts nowhere.
   */
  method ConfusionCounts(yTrue: seq<real>, yPred: seq<real>) returns (c: Confusion)
    requires |yTrue| <= |yPred|
    ensures c.tp == Hits(yTrue, yPred, 1.0, 1.0, |yTrue|)
    ensures c.fp == Hits(yTrue, yPred, 0.0, 1.0, |yTrue|)
    ensures c.fn == Hits(yTrue, yPred, 1.0, 0.0, |yTrue|)
    ensures c.tn == Hits(yTrue, yPred, 0.0, 0.0, |yTrue|)
  {
    var tp, fp, tn, fn := 0, 0, 0, 0;
    for i := 0 to |yTrue|
      invariant tp == Hits(yTrue, yPred, 1.0, 1.0, i)
      invariant fp == Hits(yTrue, yPred, 0.0, 1.0, i)
      invariant fn == Hits(yTrue, yPred, 1.0, 0.0, i)
      invariant tn == Hits(yTrue, yPred, 0.0, 0.0, i)
    {
      HitsStep(yTrue, yPred, 1.0, 1.0, i);
      HitsStep(yTrue, yPred, 0.0, 1.0, i);
      HitsStep(yTrue, yPred, 1.0, 0.0, i);
      HitsStep(yTrue, yPred, 0.0, 0.0, i);
      if yPred[i] == 1.0 && yTrue[i] == 1.0 {
        tp := tp + 1;
      } else if yPred[i] == 1.0 && yTrue[i] == 0.0 {
        fp := fp + 1;
      } else if yPred[i] == 0.0 && yTrue[i] == 1.0 {
        fn := fn + 1;
      } else if yPred[i] == 0.0 && yTrue[i] == 0.0 {
        tn := tn + 1;
      }
    }
    c := Confusion(tp, fp, tn, fn);
  }

  /** The sum of the four counts over the first `n` positions. */
  function Total(yTrue: seq<real>, yPred: seq<real>, n: nat): nat
    requires n <= |yTrue| && n <= |yPred|
  {
    Hits(yTrue, yPred, 1.0, 1.0, n) + Hits(yTrue, yPred, 0.0, 1.0, n)
      + Hits(yTrue, yPred, 1.0, 0.0, n) + Hits(yTrue, yPred, 0.0, 0.0, n)
  }

  /**
   * The four counts partition the positions whose truth and prediction are
   * both 0 or 1: together they count exactly those, so at most `n`, and all
   * `n` when every value is binary.
   */
  lemma {:induction false} CountsPartition(yTrue: seq<real>, yPred: seq<real>, n: nat)
    requires n <= |yTrue| && n <= |yPred|
    ensures Total(yTrue, yPred, n) == BinaryPairs(yTrue, yPred, n)
    ensures Total(yTrue, yPred, n) <= n
    ensures (forall i | 0 <= i < n :: IsBinary(yTrue[i]) && IsBinary(yPred[i])) ==> Total(yTrue, yPred, n) == n
  {
    if n > 0 {
      CountsPartition(yTrue, yPred, n - 1);
      HitsStep(yTrue, yPred, 1.0, 1.0, n - 1);
      HitsStep(yTrue, yPred, 0.0, 1.0, n - 1);
      HitsStep(yTrue, yPred, 1.0, 0.0, n - 1);
      HitsStep(yTrue, yPred, 0.0, 0.0, n - 1);
      BinaryPairsStep(yTrue, yPred, n - 1);
    }
  }
}
