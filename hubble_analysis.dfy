/** Sequential conservative aggregation of H0 measurements: pairs are merged
    at their midpoint, with an error that averages the two errors and adds
    half of their disagreement. */
module HubbleAnalysis {
  import opened Outcomes
  import NuAlgebra

  /** A measured value with its error estimate. */
  datatype Estimate = Estimate(value: real, err: real)

  /** One measurement: its source label, nominal value and uncertainty. */
  datatype Row = Row(source: string, n: real, u: real)

  /** One recorded aggregation step. */
  datatype Step = Step(step: nat, source: string, n: real, u: real, intervalLow: real, intervalHigh: real)

  /** The aggregated value, its error, and every recorded step. */
  datatype Summary = Summary(value: real, err: real, steps: seq<Step>)

  function Min(a: real, b: real): (m: real)
    ensures m <= a && m <= b && (m == a || m == b)
  {
    if a < b then a else b
  }

  function Max(a: real, b: real): (m: real)
    ensures m >= a && m >= b && (m == a || m == b)
  {
    if a < b then b else a
  }

  // ==================== Pair combinator ====================

  /** Midpoint of the two values; error = mean error + half the disagreement. */
  function AggregatePair(v1: real, e1: real, v2: real, e2: real): (r: Estimate)
    ensures 2.0 * r.value == v1 + v2
    ensures 2.0 * r.err == e1 + e2 + NuAlgebra.Abs(v1 - v2)
    ensures e1 >= 0.0 && e2 >= 0.0 ==>
      (r.err >= 0.0 && NuAlgebra.Contains(NuAlgebra.NUPair(r.value, r.err), v1)
       && NuAlgebra.Contains(NuAlgebra.NUPair(r.value, r.err), v2))
    ensures r.value - r.err <= Min(v1, v2) - (e1 + e2) * 0.5
    ensures Max(v1, v2) + (e1 + e2) * 0.5 <= r.value + r.err
  {
    Estimate((v1 + v2) * 0.5, (e1 + e2) * 0.5 + NuAlgebra.Abs(v1 - v2) * 0.5)
  }

  /** Swapping the two measurements does not change the result. */
  lemma AggregatePairSymmetric(v1: real, e1: real, v2: real, e2: real)
    ensures AggregatePair(v1, e1, v2, e2) == AggregatePair(v2, e2, v1, e1)
  {
  }

  // ==================== Sequential fold ====================

  /** Left fold of AggregatePair in index order, starting from element 0. */
  function FoldPairs(values: seq<real>, errors: seq<real>): Estimate
    requires |values| == |errors| >= 1
  {
    if |values| == 1 then Estimate(values[0], errors[0])
    else
      var acc := FoldPairs(values[..|values| - 1], errors[..|errors| - 1]);
      AggregatePair(acc.value, acc.err, values[|values| - 1], errors[|errors| - 1])
  }

  /** Left fold with LengthMismatch on unequal lengths and (0, 0) when empty. */
  method AggregateSequential(values: seq<real>, errors: seq<real>) returns (r: Result<Estimate>)
    ensures |values| != |errors| <==> r == Failure(LengthMismatch)
    ensures |values| == |errors| == 0 ==> r == Success(Estimate(0.0, 0.0))
    ensures |values| == |errors| == 1 ==> r == Success(Estimate(values[0], errors[0]))
    ensures |values| == |errors| >= 1 ==> r == Success(FoldPairs(values, errors))
  {
    if |values| != |errors| {
      return Failure(LengthMismatch);
    }
    if |values| == 0 {
      return Success(Estimate(0.0, 0.0));
    }
    var resultVal := values[0];
    var resultErr := errors[0];
    for i := 1 to |values|
      invariant Estimate(resultVal, resultErr) == FoldPairs(values[..i], errors[..i])
    {
      assert values[..i + 1][..i] == values[..i];
      assert errors[..i + 1][..i] == errors[..i];
      var next := AggregatePair(resultVal, resultErr, values[i], errors[i]);
      resultVal, resultErr := next.value, next.err;
    }
    assert values[..|values|] == values && errors[..|errors|] == errors;
    r := Success(Estimate(resultVal, resultErr));
  }

  /** Non-negative errors give a non-negative aggregated error. */
  lemma {:induction false} FoldPairsErrNonNegative(values: seq<real>, errors: seq<real>)
    requires |values| == |errors| >= 1
    requires forall i :: 0 <= i < |errors| ==> errors[i] >= 0.0
    ensures FoldPairs(values, errors).err >= 0.0
  {
    if |values| > 1 {
      FoldPairsErrNonNegative(values[..|values| - 1], errors[..|errors| - 1]);
    }
  }

  /** The aggregated value stays within the range of the measured values. */
  lemma {:induction false} FoldPairsValueBetween(values: seq<real>, errors: seq<real>, lo: real, hi: real)
    requires |values| == |errors| >= 1
    requires forall i :: 0 <= i < |values| ==> lo <= values[i] <= hi
    ensures lo <= FoldPairs(values, errors).value <= hi
  {
    if |values| > 1 {
      FoldPairsValueBetween(values[..|values| - 1], errors[..|errors| - 1], lo, hi);
    }
  }

  /** With non-negative errors the last value folded in is always covered. */
  lemma FoldPairsCoversLast(values: seq<real>, errors: seq<real>)
    requires |values| == |errors| >= 1
    requires forall i :: 0 <= i < |errors| ==> errors[i] >= 0.0
    ensures NuAlgebra.Contains(NuAlgebra.NUPair(FoldPairs(values, errors).value, FoldPairs(values, errors).err), values[|values| - 1])
  {
    if |values| > 1 {
      FoldPairsErrNonNegative(values[..|values| - 1], errors[..|errors| - 1]);
    }
  }

  /** The fold depends on the order of the measurements, and its interval
      need not contain an earlier measurement. */
  lemma FoldPairsOrderMatters()
    ensures FoldPairs([0.0, 0.0, 4.0], [0.0, 0.0, 0.0]) == Estimate(2.0, 2.0)
    ensures FoldPairs([4.0, 0.0, 0.0], [0.0, 0.0, 0.0]) == Estimate(1.0, 2.0)
    ensures !NuAlgebra.Contains(NuAlgebra.NUPair(FoldPairs([4.0, 0.0, 0.0], [0.0, 0.0, 0.0]).value,
                                                FoldPairs([4.0, 0.0, 0.0], [0.0, 0.0, 0.0]).err), 4.0)
  {
    assert [0.0, 0.0, 4.0][..2] == [0.0, 0.0];
    assert [4.0, 0.0, 0.0][..2] == [4.0, 0.0];
    assert [0.0, 0.0, 0.0][..2] == [0.0, 0.0];
    assert [0.0, 0.0][..1] == [0.0];
    assert [4.0, 0.0][..1] == [4.0];
  }

  /** Planck 2018 combined with SH0ES 2022. */
  lemma FoldPairsPlanckShoes()
    ensures FoldPairs([67.4, 73.04], [0.5, 1.04]) == Estimate(70.22, 3.59)
  {
    assert [67.4, 73.04][..1] == [67.4];
    assert [0.5, 1.04][..1] == [0.5];
  }

  // ==================== Intervals and overlap ====================

  /** [v - e, v + e]. */
  function ComputeInterval(v: real, e: real): (r: (real, real))
    ensures r.1 - r.0 == 2.0 * e && r.0 + r.1 == 2.0 * v
    ensures e >= 0.0 ==> r.0 <= v <= r.1
  {
    (v - e, v + e)
  }

  /** The interval of a value pair is the interval of the N/U value with those parts. */
  lemma ComputeIntervalMatchesNU(x: NuAlgebra.NU)
    ensures ComputeInterval(x.n, x.u) == NuAlgebra.Interval(x)
  {
    var (lo, hi) := NuAlgebra.Interval(x);
    assert hi - lo == 2.0 * x.u && lo + hi == 2.0 * x.n;
  }

  /** The overlap flag: not (min of the highs < max of the lows). */
  function Overlaps(n1: real, u1: real, n2: real, u2: real): (r: bool)
    ensures r <==> u1 >= 0.0 && u2 >= 0.0 && NuAlgebra.Abs(n1 - n2) <= u1 + u2
  {
    !(Min(n1 + u1, n2 + u2) < Max(n1 - u1, n2 - u2))
  }

  /** The flag holds exactly when some point lies in both bands. */
  lemma OverlapsIffCommonPoint(n1: real, u1: real, n2: real, u2: real)
    ensures Overlaps(n1, u1, n2, u2) <==> exists x :: NuAlgebra.Contains(NuAlgebra.NUPair(n1, u1), x) && NuAlgebra.Contains(NuAlgebra.NUPair(n2, u2), x)
  {
    if Overlaps(n1, u1, n2, u2) {
      var x := Max(n1 - u1, n2 - u2);
      assert NuAlgebra.Contains(NuAlgebra.NUPair(n1, u1), x) && NuAlgebra.Contains(NuAlgebra.NUPair(n2, u2), x);
    }
  }

  lemma OverlapsSymmetric(n1: real, u1: real, n2: real, u2: real)
    ensures Overlaps(n1, u1, n2, u2) == Overlaps(n2, u2, n1, u1)
  {
  }

  lemma OverlapsExamples()
    ensures !Overlaps(67.4, 0.5, 73.04, 1.04)
    ensures Overlaps(73.04, 1.04, 73.3, 1.8)
  {
  }

  // ==================== Recorded aggregation ====================

  /** The column of nominal values. */
  function Values(rows: seq<Row>): (vs: seq<real>)
    ensures |vs| == |rows| && forall i :: 0 <= i < |rows| ==> vs[i] == rows[i].n
  {
    seq(|rows|, i requires 0 <= i < |rows| => rows[i].n)
  }

  /** The column of uncertainties. */
  function Errors(rows: seq<Row>): (es: seq<real>)
    ensures |es| == |rows| && forall i :: 0 <= i < |rows| ==> es[i] == rows[i].u
  {
    seq(|rows|, i requires 0 <= i < |rows| => rows[i].u)
  }

  /** Step 0 carries the first source; later steps say what was combined. */
  function StepLabel(rows: seq<Row>, k: nat): (text: string)
    requires k < |rows|
    ensures k == 0 ==> text == rows[0].source
    ensures k > 0 ==> text == "After combining " + rows[k].source
  {
    if k == 0 then rows[0].source else "After combining " + rows[k].source
  }

  /** The record for step k: the fold of the first k + 1 rows and its interval. */
  function StepAt(rows: seq<Row>, k: nat): (s: Step)
    requires k < |rows|
    ensures s.step == k && s.source == StepLabel(rows, k)
    ensures Estimate(s.n, s.u) == FoldPairs(Values(rows)[..k + 1], Errors(rows)[..k + 1])
    ensures s.intervalLow == s.n - s.u && s.intervalHigh == s.n + s.u
  {
    var f := FoldPairs(Values(rows)[..k + 1], Errors(rows)[..k + 1]);
    Step(k, StepLabel(rows, k), f.value, f.err, f.value - f.err, f.value + f.err)
  }

  /** The fold over all rows, recording the running result after each row.
      The first row is read unconditionally, so no rows is an error. */
  method CalculateAggregatedH0(rows: seq<Row>) returns (r: Result<Summary>)
    ensures |rows| == 0 <==> r == Failure(EmptyInput)
    ensures |rows| > 0 ==>
      (r.Success? && |r.value.steps| == |rows| && forall k :: 0 <= k < |rows| ==> r.value.steps[k] == StepAt(rows, k))
    ensures |rows| > 0 ==>
      (r.Success? && Estimate(r.value.value, r.value.err) == FoldPairs(Values(rows), Errors(rows)))
  {
    if |rows| == 0 {
      return Failure(EmptyInput);
    }
    ghost var values := Values(rows);
    ghost var errors := Errors(rows);
    var currentVal := rows[0].n;
    var currentErr := rows[0].u;
    var steps := [Step(0, rows[0].source, currentVal, currentErr, currentVal - currentErr, currentVal + currentErr)];
    assert steps[0] == StepAt(rows, 0);
    for i := 1 to |rows|
      invariant |steps| == i
      invariant Estimate(currentVal, currentErr) == FoldPairs(values[..i], errors[..i])
      invariant forall k :: 0 <= k < i ==> steps[k] == StepAt(rows, k)
    {
      assert values[..i + 1][..i] == values[..i];
      assert errors[..i + 1][..i] == errors[..i];
      var next := AggregatePair(currentVal, currentErr, rows[i].n, rows[i].u);
      currentVal, currentErr := next.value, next.err;
      var step := Step(i, "After combining " + rows[i].source, currentVal, currentErr,
                       currentVal - currentErr, currentVal + currentErr);
      assert step == StepAt(rows, i);
      steps := steps + [step];
    }
    assert values[..|rows|] == values && errors[..|rows|] == errors;
    r := Success(Summary(currentVal, currentErr, steps));
  }

  /** The summary's value and error are those of the last recorded step. */
  lemma LastStepIsResult(rows: seq<Row>)
    requires |rows| > 0
    ensures Estimate(StepAt(rows, |rows| - 1).n, StepAt(rows, |rows| - 1).u) == FoldPairs(Values(rows), Errors(rows))
  {
    assert Values(rows)[..|rows|] == Values(rows);
    assert Errors(rows)[..|rows|] == Errors(rows);
  }
}
