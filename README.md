# N/U algebra and sequential H0 aggregation in Dafny

This project models the two computational cores of the H0 concordance analysis.

**N/U algebra** (`07_code/nu_algebra.py`, module `NuAlgebra`).
- An N/U value is a pair (n, u): a nominal value n and a conservative uncertainty bound u >= 0.
- The constructor clamps a negative u to 0. The model's `Make` does the same, and the subset type `NU` holds only pairs with u >= 0.
- The operators are add, sub, mul, scalar, affine, catch and flip. Alongside them sit the derived accessors (invariant, bounds, interval, relative uncertainty, sign stability), the operator sugar (`+` and `-` with a scalar operand, unary minus, `abs`) and integer `pow`.
- Three module-level folds are modelled: `cumulative_sum`, `cumulative_product` and `weighted_mean`.
- `pow` and the two cumulative folds reassign an accumulator in a loop. They are modelled as methods whose loop invariants tie the accumulator to a left-fold specification function. The lemmas then prove closed forms of those functions.
- The closed forms are: the power rule (n^k, k·|n|^(k-1)·u); (Σn, Σu) for sums; Πn for products; and (Σw·n / W, Σ|w|·u / |W|) for weighted means.

**Sequential conservative aggregation** (`07_code/hubble_analysis.py`, module `HubbleAnalysis`).
- `aggregate_pair` takes the midpoint of two measurements. Its error is the mean of the two errors plus half of their disagreement.
- `aggregate_sequential` is its left fold.
- `compute_interval` turns a value and error into [v - e, v + e].
- The `overlaps` flag of the tension table is modelled as its own function.
- `calculate_aggregated_h0` re-runs the fold over the measurement rows and records one step per row.

Both modules share `Outcomes` (`outcomes.dfy`). It holds the `Result`/`Option` types and the error cases that stand for the exceptions Python raises.

All arithmetic is over Dafny's exact `real`, so the documented examples hold as exact equalities.

## Model

| member | source | states |
|---|---|---|
| NuAlgebra.Make | 07_code/nu_algebra.py:40-41 | construction never fails; a non-negative u is kept, a negative u is clamped to 0, n is kept |
| NuAlgebra.MakeClampExamples | 07_code/nu_algebra.py:40-41 | NU(5, -3) is (5, 0); NU(-2, 0.5) keeps both parts |
| NuAlgebra.Add | 07_code/nu_algebra.py:73 | result is (n1 + n2, u1 + u2) |
| NuAlgebra.Sub | 07_code/nu_algebra.py:85 | result is (n1 - n2, u1 + u2): uncertainties add even for a difference |
| NuAlgebra.Mul | 07_code/nu_algebra.py:104-107 | result is (n1·n2, \|n1\|·u2 + \|n2\|·u1) |
| NuAlgebra.MulEnclosesToFirstOrder | 07_code/nu_algebra.py:87-107 | for any p in [n1 ± u1] and q in [n2 ± u2], \|p·q - n1·n2\| is at most the product's u plus the neglected second-order term u1·u2 |
| NuAlgebra.MulIsNotEnclosing | 07_code/nu_algebra.py:104-107 | without that term the product's interval can miss a true product: 2 ∈ (1, 1), yet 4 ∉ (1, 1)⊗(1, 1) |
| NuAlgebra.Scalar | 07_code/nu_algebra.py:123 | result is (a·n, \|a\|·u) |
| NuAlgebra.Affine | 07_code/nu_algebra.py:140 | result is (a·n + b, \|a\|·u); same u as scalar(a), and n shifted from it by b |
| NuAlgebra.AffineOffsetIndependent | 07_code/nu_algebra.py:140 | the offset b never changes u, and affine(a, 0) is scalar(a) |
| NuAlgebra.LinearEncloses | 07_code/nu_algebra.py:73-140 | add, sub and affine are conservative: combining any values inside the input intervals lands inside the result's interval |
| NuAlgebra.Catch | 07_code/nu_algebra.py:158 | result has n = 0 and the same invariant \|n\| + u, and its interval contains the input's |
| NuAlgebra.CatchEncloses | 07_code/nu_algebra.py:144-158 | every value in x's interval is in catch(x)'s interval |
| NuAlgebra.Flip | 07_code/nu_algebra.py:174 | result is (u, \|n\|), which keeps the invariant \|n\| + u |
| NuAlgebra.CatchIdempotent | 07_code/nu_algebra.py:158 | catch(catch(x)) = catch(x) |
| NuAlgebra.CatchAfterFlip | 07_code/nu_algebra.py:158-174 | catch(flip(x)) = catch(x) |
| NuAlgebra.FlipTwice | 07_code/nu_algebra.py:174 | flip(flip(x)) = abs(x) |
| NuAlgebra.Invariant | 07_code/nu_algebra.py:178-194 | M = \|n\| + u, which bounds both \|n\| and u from above |
| NuAlgebra.LowerBound | 07_code/nu_algebra.py:196-198 | lower bound is u below n |
| NuAlgebra.UpperBound | 07_code/nu_algebra.py:200-202 | upper bound is u above n |
| NuAlgebra.Interval | 07_code/nu_algebra.py:204-211 | the interval contains n, is centred on n and is 2u wide |
| NuAlgebra.RelativeUncertainty | 07_code/nu_algebra.py:213-222 | infinite exactly when n = 0; otherwise a non-negative r with r·\|n\| = u |
| NuAlgebra.IsSignStable | 07_code/nu_algebra.py:224-231 | stable iff the interval lies strictly above or strictly below 0 |
| NuAlgebra.SignStableExcludesZero | 07_code/nu_algebra.py:224-231 | stable iff \|n\| > u iff 0 is outside [n - u, n + u]; the equality case (2, 2) is not stable |
| NuAlgebra.AddScalar | 07_code/nu_algebra.py:235-239 | nu + b shifts n by b and keeps u |
| NuAlgebra.SubScalar | 07_code/nu_algebra.py:241-245 | nu - b shifts n by -b and keeps u |
| NuAlgebra.Negate | 07_code/nu_algebra.py:257-259 | -nu negates n and keeps u |
| NuAlgebra.Absolute | 07_code/nu_algebra.py:261-263 | abs(nu) has n = \|n\| and the same u, so the same invariant |
| NuAlgebra.NUAdd | 07_code/nu_algebra.py:376-378 | the functional alias gives (n1 + n2, u1 + u2) |
| NuAlgebra.NUMul | 07_code/nu_algebra.py:381-383 | the functional alias gives (n1·n2, \|n1\|·u2 + \|n2\|·u1) |
| NuAlgebra.NUScalar | 07_code/nu_algebra.py:386-388 | the functional alias gives (a·n, \|a\|·u) |
| NuAlgebra.AddRightIdentity | 07_code/nu_algebra.py:73 | NU(0, 0) is a right identity of add |
| NuAlgebra.AddCommutativeAssociative | 07_code/nu_algebra.py:73 | add is commutative and associative |
| NuAlgebra.SubIsAddNegate | 07_code/nu_algebra.py:85 | a - b = a + (-b) |
| NuAlgebra.MulCommutative | 07_code/nu_algebra.py:104-107 | mul is commutative |
| NuAlgebra.MulOneIdentity | 07_code/nu_algebra.py:104-107 | NU(1, 0), the empty product, is a right identity of mul |
| NuAlgebra.DocExamples | 07_code/nu_algebra.py:25-29 | the documented examples hold: (2, 0.05) + (1.2, 0.02) = (3.2, 0.07), and the add, sub, mul, scalar, affine, catch, flip and invariant examples at lines 70-71, 82-83, 101-102, 120-121, 137-138, 155-156, 171-172 and 188-192 |
| NuAlgebra.PowUncertaintyClosedForm | 07_code/nu_algebra.py:279-285 | the uncertainty recurrence of repeated mul solves to k·a^(k-1)·u |
| NuAlgebra.PowClosedForm | 07_code/nu_algebra.py:282-285 | x multiplied by itself k times has nominal n^k and the recurrence's uncertainty in \|n\| |
| NuAlgebra.PowRule | 07_code/nu_algebra.py:265-285 | x^k = (n^k, k·\|n\|^(k-1)·u) |
| NuAlgebra.PowExample | 07_code/nu_algebra.py:276-277 | (3, 0.1)^2 = (9, 0.6) |
| NuAlgebra.Pow | 07_code/nu_algebra.py:279-285 | fails exactly when the exponent is below 1; otherwise returns the (k-1)-fold repeated product, which is (n^k, k·\|n\|^(k-1)·u) |
| NuAlgebra.SumFoldClosedForm | 07_code/nu_algebra.py:304-310 | the left fold of add is (Σn_i, Σu_i), and (0, 0) when empty |
| NuAlgebra.CumulativeSum | 07_code/nu_algebra.py:290-310 | returns the left fold of add from the first element, (0, 0) for no arguments, which equals (Σn_i, Σu_i) |
| NuAlgebra.SumDocExample | 07_code/nu_algebra.py:300-302 | the sum of (1, 0.1), (2, 0.2), (3, 0.3) is (6, 0.6) |
| NuAlgebra.ProductFoldNominal | 07_code/nu_algebra.py:327-333 | the nominal of the product fold is the product of the nominals |
| NuAlgebra.ProductFoldExact | 07_code/nu_algebra.py:327-333 | exact factors (all u = 0) give an exact product |
| NuAlgebra.ProductOfCopiesIsPow | 07_code/nu_algebra.py:282-284 | the product of k copies of x is pow(x, k) |
| NuAlgebra.CumulativeProduct | 07_code/nu_algebra.py:313-333 | returns the left fold of mul from the first element, (1, 0) for no arguments, with nominal Πn_i |
| NuAlgebra.ProductDocExample | 07_code/nu_algebra.py:324-333 | the product of (2, 0.1), (3, 0.2), (4, 0.1) is (24, 3.4) |
| NuAlgebra.ProductDocClaimFails | 07_code/nu_algebra.py:324-325 | that product is not the documented (24, 5.2) |
| NuAlgebra.Ones | 07_code/nu_algebra.py:355-356 | default weights: one weight 1.0 per value |
| NuAlgebra.ScaleEach | 07_code/nu_algebra.py:366-368 | element i is x_i scaled by w_i |
| NuAlgebra.ScaledSums | 07_code/nu_algebra.py:366-368 | the scaled values sum to (Σw_i·n_i, Σ\|w_i\|·u_i) |
| NuAlgebra.EffectiveWeights | 07_code/nu_algebra.py:355-356 | the given weights, or all 1 when none are given |
| NuAlgebra.WeightedMean | 07_code/nu_algebra.py:336-371 | fails with EmptyInput iff there are no values; with LengthMismatch iff the weight count differs; with ZeroTotalWeight iff the counts agree and Σw = 0 |
| NuAlgebra.WeightedMeanClosedForm | 07_code/nu_algebra.py:361-371 | otherwise it succeeds with (Σw_i·n_i / W, Σ\|w_i\|·u_i / \|W\|), W = Σw_i |
| NuAlgebra.ScaledTotal | 07_code/nu_algebra.py:371 | scaling by 1/W divides n by W and u by \|W\| |
| NuAlgebra.DefaultWeightSums | 07_code/nu_algebra.py:355-356 | with unit weights, W is the count and the weighted sums are the plain sums |
| NuAlgebra.DefaultWeightsArePlainMean | 07_code/nu_algebra.py:352-371 | without weights, a non-empty input gives (Σn_i / k, Σu_i / k) |
| NuAlgebra.WeightedMeanExample | 07_code/nu_algebra.py:348-350 | the mean of (10, 1), (12, 1.5), (11, 0.8) is (11, 1.1) |
| NuAlgebra.WeightedMeanFailureExamples | 07_code/nu_algebra.py:352-363 | each of the three failures on a small input |
| HubbleAnalysis.AggregatePair | 07_code/hubble_analysis.py:80-93 | value is the midpoint; 2·err = e1 + e2 + \|v1 - v2\|; with e1, e2 >= 0, err >= 0 and both values are covered; the interval reaches half the mean error beyond both values |
| HubbleAnalysis.AggregatePairSymmetric | 07_code/hubble_analysis.py:91-93 | swapping the two measurements gives the same result |
| HubbleAnalysis.AggregateSequential | 07_code/hubble_analysis.py:96-121 | LengthMismatch iff the lengths differ; (0, 0) when empty; the single pair for one element; otherwise the left fold of aggregate_pair from element 0 |
| HubbleAnalysis.FoldPairsErrNonNegative | 07_code/hubble_analysis.py:113-121 | non-negative errors give a non-negative aggregated error |
| HubbleAnalysis.FoldPairsValueBetween | 07_code/hubble_analysis.py:113-121 | the aggregated value stays within any bounds on all measured values |
| HubbleAnalysis.FoldPairsCoversLast | 07_code/hubble_analysis.py:116-119 | with non-negative errors, the last measurement folded in lies within the result's interval |
| HubbleAnalysis.FoldPairsOrderMatters | 07_code/hubble_analysis.py:116-119 | the fold depends on order: (0, 0, 4) gives (2, 2) but (4, 0, 0) gives (1, 2), whose interval [-1, 3] excludes the first measurement 4 |
| HubbleAnalysis.FoldPairsPlanckShoes | 07_code/hubble_analysis.py:91-93 | Planck (67.4, 0.5) with SH0ES (73.04, 1.04) gives (70.22, 3.59) |
| HubbleAnalysis.ComputeInterval | 07_code/hubble_analysis.py:124-126 | the interval is centred on v and 2e wide; with e >= 0 it contains v |
| HubbleAnalysis.ComputeIntervalMatchesNU | 07_code/hubble_analysis.py:124-126 | the interval of (v, e) is the N/U interval of the same pair |
| HubbleAnalysis.Overlaps | 07_code/hubble_analysis.py:219 | the flag holds iff both errors are non-negative and \|n1 - n2\| <= u1 + u2 |
| HubbleAnalysis.OverlapsIffCommonPoint | 07_code/hubble_analysis.py:219 | the flag holds iff some point lies in both closed bands |
| HubbleAnalysis.OverlapsSymmetric | 07_code/hubble_analysis.py:219 | the flag is symmetric in the two measurements |
| HubbleAnalysis.OverlapsExamples | 07_code/hubble_analysis.py:219 | Planck and SH0ES do not overlap; SH0ES and a (73.3, 1.8) measurement do |
| HubbleAnalysis.Values | 07_code/hubble_analysis.py:162 | the column of nominal values, row by row |
| HubbleAnalysis.Errors | 07_code/hubble_analysis.py:163 | the column of uncertainties, row by row |
| HubbleAnalysis.StepLabel | 07_code/hubble_analysis.py:172-187 | step 0 is labelled with the first source; step k > 0 with "After combining " and source k |
| HubbleAnalysis.StepAt | 07_code/hubble_analysis.py:170-192 | step k records k, its label, the fold of the first k + 1 rows, and the interval n ∓ u |
| HubbleAnalysis.CalculateAggregatedH0 | 07_code/hubble_analysis.py:155-195 | no rows is an error; otherwise one step per row, step k as described, and the returned pair is the fold over all rows |
| HubbleAnalysis.LastStepIsResult | 07_code/hubble_analysis.py:185-195 | the last recorded step carries the returned pair |

## Left out

- `tension_sigma` (07_code/hubble_analysis.py:212) needs a floating-point square root, so only the `overlaps` flag next to it is modelled. The pairwise loop that builds the tension table is also omitted; it only collects these values.
- Plotting, CSV export and console output in hubble_analysis.py are presentation and I/O.
- `create_dataset` (pandas DataFrame construction and derived columns) is left out. Its rows enter the model as a sequence of `Row(source, n, u)`, and the DataFrame of steps is a `seq<Step>`.
- `__repr__` and `__str__` are text formatting.
- `__eq__` is Dafny's structural equality on the datatype. Comparing with a non-NU value is not expressible in the types.
- The `isinstance` dispatch in `__add__`, `__sub__` and `__mul__`/`__rmul__` is modelled as one function per branch: NU+NU is `Add`, NU+scalar is `AddScalar`, NU-scalar is `SubScalar`, and NU·scalar is `Scalar`.
- Floating-point rounding is not modelled. All arithmetic is on exact reals, and `float(n)` conversion is the identity.
- `float('inf')` from `relative_uncertainty` is the `Infinite` case of `Ratio`.
- `calculate_aggregated_h0` on an empty table raises IndexError in Python. The model returns `Failure(EmptyInput)` instead.
- Exceptions raised by `pow` and `weighted_mean` are `Failure` results carrying the reason.
- NuAlgebra.Mul: first-order propagation is not enclosing in general. `MulEnclosesToFirstOrder` proves the bound with the u1·u2 term added, and `MulIsNotEnclosing` shows that the term is needed.
- NuAlgebra.WeightedMean: the final `scalar(1/W)` divides u by |W|, and the model does the same. With unit weights u is the mean of the u_i, as in the docstring example at 07_code/nu_algebra.py:348-350.

## Findings

| source | as written | input that shows it | evidently intended | confidence | as-written member | corrected member |
|---|---|---|---|---|---|---|
| 07_code/nu_algebra.py:324-325 | the docstring says `cumulative_product(NU(2, 0.1), NU(3, 0.2), NU(4, 0.1))` is `NU(24, 5.2)` | (2, 0.1), (3, 0.2), (4, 0.1): the mul formula at lines 104-107 gives (6, 0.7), then (24, 6·0.1 + 4·0.7) = (24, 3.4) | the documented value should be `NU(24, 3.4)`; the code is consistent with its own multiplication rule | not executed | NuAlgebra.ProductDocClaimFails | NuAlgebra.ProductDocExample |
