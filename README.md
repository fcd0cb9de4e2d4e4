# A verified model of `svm_train_qt`

`svm_train_qt` (svmoverloads.h) is a copy of libsvm's `svm_train`, kept
in a header of a Qt application. It takes a training problem (samples as
sparse node arrays, one real target per sample) and the training
parameters. It builds an
`svm_model` in one of two ways:

* **Regression and one-class** (`ONE_CLASS`, `EPSILON_SVR`, `NU_SVR`): it
  trains one decision function. Samples with a nonzero coefficient become
  the support vectors, kept in input order and numbered from 1. With
  `probability` set, it calibrates the model: an SVR gets one `probA` value,
  and one-class gets ten density marks, kept only when the calibrator
  reports success.
* **Classification** (`C_SVC`, `NU_SVC`): it groups the samples by class
  label and computes a per-class penalty `C`, scaled by the weight
  overrides. It trains one binary classifier for every pair of classes
  i < j, in lexicographic order. A sample is a support vector when any
  classifier of its class gave it a nonzero coefficient. It counts the
  support vectors per class and compacts them into `SV` and `sv_indices`.
  Finally it scatters every classifier's coefficients into the K−1 rows of
  `sv_coef`: class i's go to row j−1, class j's to row i, each at its
  support vector's column.

The helpers in utils.h are modelled as well. `getData` turns dense rows
into libsvm node arrays: a bias node `(1, 1.0)`, feature `j` at index
`j+2`, and a `(-1, 0)` terminator. It turns targets into truncated
integers. `classificationReport` counts true and false positives and
negatives.

The library routines that `svm_train_qt` calls are not modelled inside; they
are parameters with contracts (`SvmTypes.Collaborators`):

* `svm_group_classes` returns a grouping of a nonempty problem: distinct
  labels, nonempty contiguous runs, and a permutation.
* `svm_train_one` returns one coefficient per sample.
* The calibrators return their values; a one-class calibration that
  reports success yields ten marks.

The theorems are stated against those contracts.

Modules, following the source's structure:

| file | module | what it holds |
|---|---|---|
| sequences.dfy | `Sequences` | flag counting, rank, selection, prefix sums |
| svm_types.dfy | `Wrappers`, `SvmTypes` | nodes, problems, parameters, decisions, groupings, the model record, the C `(int)` cast, the collaborators |
| pair_order.dfy | `PairOrder` | the pair counter `p` of the i<j loops |
| class_runs.dfy | `ClassRuns` | the class runs of a grouping and the gathered sample array `x` |
| weighted_c.dfy | `WeightedC` | the weighted penalties |
| pairwise.dfy | `Pairwise` | sub-problems, the pair training loop, the `nonzero` flags |
| assembler.dfy | `Assembler` | `nSV`, `total_sv`, `SV`/`sv_indices` compaction, `nz_start` |
| coefficients.dfy | `Coefficients` | the `sv_coef` scatter over a two-dimensional array |
| train.dfy | `Train` | `svm_train_qt` itself and the theorems about the whole model |
| utils.dfy | `Utils` | `getData` and the confusion counts |

## Model

| member | source | states |
|---|---|---|
| Train.TrainQt | svmoverloads.h:9-276 | A regression or one-class type yields exactly the single-function model. Any other type yields the classification model built from the pairwise decisions. |
| Train.TrainSingle | svmoverloads.h:15-68 | The model has two classes, no labels and no per-class counts, and `rho = [f.rho]`. `SV`, `sv_coef[0]` and `sv_indices` are the samples with a nonzero coefficient, in input order. `probA` is set exactly for SVR with probability. The marks are set exactly for one-class with probability when the calibrator returns 0. Otherwise both stay unset and `probB` is always unset. |
| Train.CompactSingle | svmoverloads.h:31-47 | The count is the number of nonzero coefficients. The three lists select exactly the samples, coefficients and 1-based indices at those positions, in order. |
| Train.SingleSupport | svmoverloads.h:33-47 | The three lists have length `l`. Entry k comes from sample `sv_indices[k]-1`, which lies in range and whose coefficient is nonzero and equals `sv_coef[0][k]`. The indices strictly increase. |
| Train.SingleComplete | svmoverloads.h:40-47 | Every sample with a nonzero coefficient is listed: `i+1` occurs in `sv_indices`. |
| Train.TrainClassification | svmoverloads.h:69-274 | The model holds the grouping's labels and class count. Every pair is trained on its sub-problem with the weighted penalties. `rho[p]` is pair p's threshold. `probA`/`probB` exist exactly when probability is requested and hold each pair's calibration. The marks are unset. The support lists and counts, and every `sv_coef` cell, are as the two predicates below describe. |
| Train.CopyThresholds | svmoverloads.h:176-178 | `rho` has one entry per pair, equal to that pair's threshold. |
| Train.ClassificationCounts | svmoverloads.h:197-215 | `nSV` has one entry per class, counting the flagged samples of that class's run. Their sum equals `l`, the length of `SV` and of `sv_indices`. |
| Train.ClassificationProvenance | svmoverloads.h:218-224 | Each `sv_indices[k]` is a 1-based index into the input (`perm[i] + 1`), `SV[k]` is that input sample (the gathered `x[i] = prob->x[perm[i]]` of lines 84-87), and no index repeats. |
| Train.EveryCellWritten | svmoverloads.h:231-258 | Every cell of the K−1 rows of `sv_coef` belongs to exactly one support vector, and holds that vector's coefficient from the classifier that owns the cell. So no cell keeps its uninitialised value. |
| WeightedC.ComputeWeightedC | svmoverloads.h:91-104 | `weighted_C[c]` starts at C and is multiplied by every override weight whose label first matches class c. |
| WeightedC.FindClass | svmoverloads.h:96-99 | The search stops at the first class whose label equals the override's, or at K when none does. |
| WeightedC.FirstMatch | svmoverloads.h:96-99 | The result is the first position holding the label, or the length when it is absent. |
| WeightedC.OverrideApplied | svmoverloads.h:94-104 | One override step multiplies the matched class's constant, or does nothing when no class matches. The result is the constant of one more override. |
| WeightedC.ClassConstantStep | svmoverloads.h:94-104 | One more override multiplies exactly the first matching class's constant by its weight, and leaves the others. |
| WeightedC.ClassConstantByLabel | svmoverloads.h:94-104 | With distinct labels, a class's constant is C times the product of the weights whose label equals its own. |
| WeightedC.UnknownOverrideIgnored | svmoverloads.h:100-101 | An override whose label matches no class changes no class's constant. |
| WeightedC.SingleOverride | svmoverloads.h:92-103 | One override for class c scales c's constant by its weight and leaves every other class at C. |
| WeightedC.ForeignOverridesIgnored | svmoverloads.h:92-104 | A class that no override names keeps exactly C. |
| ClassRuns.GatherGrouped | svmoverloads.h:84-87 | `x[t]` is `prob->x[perm[t]]` for every t. |
| ClassRuns.PermuteReorders | svmoverloads.h:84-87 | Every input sample appears in `x` exactly once, at the position whose `perm` entry names it. |
| ClassRuns.PermutationOnto | svmoverloads.h:84-87 | Every sample index is some position's `perm` entry. |
| ClassRuns.RunWithin | svmoverloads.h:129-130 | A class's run ends inside the data, and before every later class's run starts. |
| ClassRuns.ClassOf | svmoverloads.h:129-130 | Every grouped position lies in some class's run. |
| ClassRuns.ClassOfUnique | svmoverloads.h:129-130 | Every grouped position lies in only one class's run. |
| ClassRuns.ClassFlags | svmoverloads.h:203-204 | A class's flags are the `nonzero` flags of its run, in order. |
| Pairwise.SubProblem | svmoverloads.h:129-147 | The sub-problem for pair (i,j) has `count[i]+count[j]` entries. The first `count[i]` are class i's samples labelled +1; the rest are class j's labelled −1. |
| Pairwise.BuildSubProblem | svmoverloads.h:126-147 | The array-filling loops produce exactly that sub-problem. |
| Pairwise.SubProblemClasses | svmoverloads.h:129-147 | Each +1 entry of the sub-problem is an input sample whose truncated target is class i's label. Each −1 entry is one whose label is class j's. |
| Pairwise.PairRuns | svmoverloads.h:129-130 | For i < j, class i's run ends before class j's starts, and both lie inside the data. |
| Pairwise.MarkNonzero | svmoverloads.h:157-162 | A flag is only ever raised. After the step, a flag is set iff it was set before or this pair gave the sample a nonzero coefficient. |
| Pairwise.TrainPair | svmoverloads.h:126-165 | Training pair p extends, by exactly pair p, three facts that hold for all earlier pairs: the decisions trained, the calibrations and the support flags. |
| Pairwise.TrainPairs | svmoverloads.h:108-166 | Every pair's decision is the solver's result on its sub-problem, with the two classes' weighted penalties. Calibrations exist exactly when probability is requested, and are per pair. `nonzero[t]` holds iff some pair involving t's class gave t a nonzero coefficient. |
| Pairwise.SupportStep | svmoverloads.h:157-162 | After pair p, a sample is flagged iff it was flagged after the pairs before p or pair p gives it a nonzero coefficient. |
| Pairwise.SupportComplete | svmoverloads.h:108-110 | After the last pair, the flags are exactly the support-vector predicate over all pairs. |
| Pairwise.TrainedStep | svmoverloads.h:154 | Storing the solver's decision at pair p extends the trained prefix by one pair. |
| Pairwise.CalibratedStep | svmoverloads.h:150-151 | Storing the calibrator's pair at p extends the calibrated prefix by one pair. |
| PairOrder.PairIndex | svmoverloads.h:121-123 | The counter value of pair (i,j) lies in row i's block and below the number of pairs. |
| PairOrder.NumPairsClosed | svmoverloads.h:111 | The number of pairs is K(K−1)/2. |
| PairOrder.RowStartClosed | svmoverloads.h:121-123 | Row i of the pair loop starts at counter value i(2K−i−1)/2. |
| PairOrder.RowStartMono | svmoverloads.h:121-123 | Later rows start at no smaller counter value. |
| PairOrder.PairIndexMonotone | svmoverloads.h:121-123 | A pair visited earlier in lexicographic i<j order has a smaller counter. |
| PairOrder.PairIndexInjective | svmoverloads.h:121-123 | Different pairs have different counters. |
| PairOrder.PairIndexOnto | svmoverloads.h:111 | Every counter value below K(K−1)/2 belongs to some pair. |
| PairOrder.RowOf | svmoverloads.h:121-123 | Every counter value lies in some row's block. |
| Assembler.CountSupport | svmoverloads.h:197-211 | `nSV[c]` counts the flags in class c's run, and `total_sv` counts all flags. |
| Assembler.CountRun | svmoverloads.h:202-208 | The inner loop counts the flags of one class's run. |
| Assembler.ClassCountsTotal | svmoverloads.h:197-215 | The per-class counts sum to the total number of support vectors. |
| Assembler.ClassCountsPrefix | svmoverloads.h:197-211 | The counts of the first m classes sum to the flags set before class m's run. |
| Assembler.ClassCountsStep | svmoverloads.h:200-211 | Each step of the class loop adds that class's count to the running sum. |
| Assembler.CompactSupport | svmoverloads.h:218-224 | `SV` and `sv_indices` list the gathered samples and their 1-based original indices at the flagged positions, in grouped order. |
| Assembler.ColumnStarts | svmoverloads.h:226-229 | `nz_start[c]` is the sum of the counts of the classes before c. |
| Coefficients.TrainedShaped | svmoverloads.h:154 | Every pair's decision has one coefficient per sample of the two classes. |
| Coefficients.OwnerPair | svmoverloads.h:239-241 | The pair that writes class m into row r is an ordered pair of classes. |
| Coefficients.OwnerSlotLayout | svmoverloads.h:239-241 | Pair (i,j) writes class m into row r iff m = i and r = j−1, or m = j and r = i. So each (class, row) cell block has exactly one writer. |
| Coefficients.ColumnInBlock | svmoverloads.h:248-256 | A support vector's column is its class's start plus its rank within its class, and lies inside its class's block. |
| Coefficients.ColumnSplit | svmoverloads.h:248-256 | A sample's rank among all flags is its class's start plus its rank within its class. |
| Coefficients.BlocksDisjoint | svmoverloads.h:248-256 | No column lies in two classes' blocks. |
| Coefficients.BlockWithin | svmoverloads.h:248-256 | Every write index stays below `nz_start[c]+nSV[c]`, which is at most `total_sv`. |
| Coefficients.ColumnInClass | svmoverloads.h:248-256 | Writing class m's run hits exactly the columns of class m's support vectors, at their ranks. Columns of other classes are outside the block. |
| Coefficients.PairCells | svmoverloads.h:239-256 | The cells pair (i,j) owns are those of class i in row j−1 and of class j in row i. Their expected contents are the pair's coefficients at the sample's offset. |
| Coefficients.RunCellWritten | svmoverloads.h:250-252 | After a run's loop, the q-th flagged entry's coefficient is at column `nz_start+q`. |
| Coefficients.RunCellKept | svmoverloads.h:250-252 | A run's loop changes no cell outside its row and column range. |
| Coefficients.ScatterRun | svmoverloads.h:248-256 | One run's loop writes the flagged coefficients consecutively from `nz_start` and changes nothing else. |
| Coefficients.ClassScatter | svmoverloads.h:248-256 | A run's loop, seen per support vector, writes each of the class's support vectors' coefficients at its column and keeps every other cell. |
| Coefficients.ClassCellsWritten | svmoverloads.h:248-252 | Every support vector of the class gets its coefficient in the written row. |
| Coefficients.ClassCellWritten | svmoverloads.h:248-252 | A given support vector of the class gets its coefficient in the written row. |
| Coefficients.ClassCellsKept | svmoverloads.h:248-252 | Every cell outside the class's part of the row is unchanged. |
| Coefficients.ClassCellKept | svmoverloads.h:248-252 | A given cell outside the class's part of the row is unchanged. |
| Coefficients.PairScatter | svmoverloads.h:243-256 | The two runs of pair (i,j) together write class i into row j−1 and class j into row i, and keep every other cell. |
| Coefficients.ScatterPair | svmoverloads.h:243-257 | One iteration of the pair loop writes exactly the cells pair (i,j) owns. |
| Coefficients.FillStep | svmoverloads.h:235-258 | After pair p, every cell owned by pairs 0..p holds its owner's coefficient. |
| Coefficients.FillCell | svmoverloads.h:235-258 | A cell owned by a pair up to p holds its owner's coefficient after pair p. |
| Coefficients.FirstClassCell | svmoverloads.h:248-252 | After pair (i,j), class i's support vectors hold their coefficients in row j−1. |
| Coefficients.SecondClassCell | svmoverloads.h:253-256 | After pair (i,j), class j's support vectors hold their coefficients in row i. |
| Coefficients.EarlierCell | svmoverloads.h:235-258 | A cell owned by an earlier pair keeps its coefficient through pair p. |
| Coefficients.ScatterCoefficients | svmoverloads.h:231-258 | `sv_coef` has K−1 rows of `total_sv` columns. In every row, each support vector's column holds the coefficient given by the pair that owns that cell. |
| Utils.GetData | utils.h:160-224 | A matrix yields one node array per row, in order, each the encoding of the row's first `numFeatures` values: node 0 is the bias `(1, 1.0)`, node j+1 is `(j+2, row[j])`, and the last is the `(-1, 0)` terminator. So each array is well formed and decodes back to the row's first `numFeatures` values. A column yields the truncated targets, same length and order. |
| Utils.GetDataX | utils.h:164-205 | One node array per row, in order, each the encoding of the row's first `numFeatures` values. |
| Utils.EncodeWellFormed | utils.h:175-194 | An encoded row is well formed. Node 0 is the bias `(1, 1.0)`, node j+1 is `(j+2, row[j])`, and the last node is the `(-1, 0)` terminator. Indices before it are positive and strictly increasing. |
| Utils.EncodeRoundTrip | utils.h:182-189 | Reading the features back out of an encoded row gives the row's first `numFeatures` values. |
| Utils.GetDataY | utils.h:209-222 | The targets keep their length and order, and each is its `(int)` truncation. |
| Utils.TargetsKeepLabels | utils.h:218 | Truncating a produced target again changes nothing, so training sees the same class labels. Each target is within 1 of its raw value. |
| SvmTypes.Truncate | utils.h:218 | The cast rounds toward zero: it never moves a value by a whole unit or across zero. |
| Utils.ConfusionCounts | utils.h:272-283 | TP, FP, FN and TN count the positions with (truth, prediction) equal to (1,1), (0,1), (1,0) and (0,0) respectively. |
| Utils.HitsStep | utils.h:272-283 | Each loop step raises a count exactly when that position matches. |
| Utils.CountsPartition | utils.h:272-283 | The four counts together count exactly the positions where both values are 0 or 1. So their sum is at most `yTrue.size()`, and equals it when every value is binary. |

## Left out

- The internals of `svm_group_classes`, `svm_train_one`, `svm_binary_svc_probability`, `svm_svr_probability` and `svm_one_class_probability`: they live in svm.cpp, which is not part of this model. They are function parameters with the contracts listed above.
- Floating point: coefficients, thresholds, penalties and targets are exact reals. `fabs(a) > 0` is modelled as `a != 0.0`, so NaN is not modelled.
- Machine integers: indices, counts and `nr_class*(nr_class-1)/2` are unbounded, so `int` overflow is not modelled.
- `info` and `fprintf` warnings (the one-class warning, the unknown weight label, the total count) and every `free`: logging and memory release.
- Train.TrainQt: requires a nonempty problem on the classification path. With no samples, grouping yields no classes and `nz_start[0]` is written into a zero-length buffer, which the source does not guard against.
- Train.TrainQt: requires `weight_label` and `weight` to have the same length; the source reads both through the single count `nr_weight`.
- Train.TrainQt: the model's sample lists are sequences of node-array values. That `SV` entries alias the caller's node arrays is not modelled, nor is the `Malloc` of each output array.
- Coefficients.ScatterCoefficients: `sv_coef` is built in a two-dimensional array and returned as rows. Dafny initialises the array where `Malloc` does not, so the model instead proves that every cell is written (`Train.EveryCellWritten`).
- Utils.GetDataX: the node arrays are returned as values, so the fresh heap allocation of each row is not modelled. It requires every row to be at least as long as the first, which is what the source reads; longer rows are cut to the first row's width.
- Utils.GetDataY: a value outside the range of `int` makes the C cast undefined; the model truncates any real.
- Utils.ConfusionCounts: the counters are naturals rather than doubles; doubles count exactly below 2^53.
- `readCSV`, `printNode`, `printObservation`, `predict`, the accuracy/precision/recall divisions and their output: file and stream I/O, a thin wrapper over the predictor, and floating-point division.
- main.cpp is not part of this model.
