/** N/U algebra: a nominal value n paired with a conservative uncertainty
    bound u >= 0, with worst-case (never quadrature) propagation of u. */
module NuAlgebra {
  import opened Outcomes

  /** A raw (nominal, uncertainty) pair, before the constructor's clamp. */
  datatype NUPair = NUPair(n: real, u: real)

  /** An N/U value: every value the constructor builds has u >= 0. */
  type NU = x: NUPair | x.u >= 0.0 witness NUPair(0.0, 0.0)

  /** Relative uncertainty u / |n|, which is infinite when n = 0. */
  datatype Ratio = Infinite | Finite(value: real)

  function Abs(r: real): (a: real)
    ensures a >= 0.0 && (a == r || a == -r)
  {
    if r < 0.0 then -r else r
  }

  /** Absolute value of a product, used by the multiplication bounds. */
  lemma AbsMul(x: real, y: real)
    ensures Abs(x * y) == Abs(x) * Abs(y)
  {
    if x < 0.0 {
      if y < 0.0 { assert x * y == (-x) * (-y); } else { assert -(x * y) == (-x) * y; }
    } else {
      if y < 0.0 { assert -(x * y) == x * (-y); }
    }
  }

  lemma MulNonNegative(x: real, y: real)
    requires x >= 0.0 && y >= 0.0
    ensures x * y >= 0.0
  {
  }

  /** Products of non-negative reals grow with both factors. */
  lemma MulMonotone(a: real, b: real, c: real, d: real)
    requires 0.0 <= a <= c && 0.0 <= b <= d
    ensures a * b <= c * d
  {
    MulNonNegative(c - a, b);
    MulNonNegative(c, d - b);
    assert (c - a) * b == c * b - a * b;
    assert c * (d - b) == c * d - c * b;
  }

  /** |x| <= X and |y| <= Y bound |x * y| by X * Y. */
  lemma MulBound(x: real, y: real, cx: real, cy: real)
    requires Abs(x) <= cx && Abs(y) <= cy
    ensures Abs(x * y) <= cx * cy
  {
    AbsMul(x, y);
    MulMonotone(Abs(x), Abs(y), cx, cy);
  }

  // ==================== Construction ====================

  /** The constructor: any n, and u clamped to be non-negative. It never fails. */
  function Make(n: real, u: real): (x: NU)
    ensures u >= 0.0 ==> x == NUPair(n, u)
    ensures u < 0.0 ==> x == NUPair(n, 0.0)
  {
    NUPair(n, if u < 0.0 then 0.0 else u)
  }

  /** A negative uncertainty is clamped to 0; the nominal is kept. */
  lemma MakeClampExamples()
    ensures Make(5.0, -3.0) == NUPair(5.0, 0.0)
    ensures Make(-2.0, 0.5) == NUPair(-2.0, 0.5)
  {
  }

  // ==================== Primary operations ====================

  /** Uncertainties always add, whatever the correlation. */
  function Add(a: NU, b: NU): (r: NU)
    ensures r.n == a.n + b.n && r.u == a.u + b.u
  {
    Make(a.n + b.n, a.u + b.u)
  }

  /** The uncertainty of a difference is the sum, never the difference. */
  function Sub(a: NU, b: NU): (r: NU)
    ensures r.n == a.n - b.n && r.u == a.u + b.u
  {
    Make(a.n - b.n, a.u + b.u)
  }

  /** First-order (linearised) propagation for a product. */
  function Mul(a: NU, b: NU): (r: NU)
    ensures r.n == a.n * b.n
    ensures r.u == Abs(a.n) * b.u + Abs(b.n) * a.u
  {
    MulNonNegative(Abs(a.n), b.u);
    MulNonNegative(Abs(b.n), a.u);
    NUPair(a.n * b.n, MulUncertainty(a.n, a.u, b.n, b.u))
  }

  /** The propagated uncertainty of a product: |n1| * u2 + |n2| * u1. */
  function MulUncertainty(n1: real, u1: real, n2: real, u2: real): real
  {
    Abs(n1) * u2 + Abs(n2) * u1
  }

  function Scalar(x: NU, a: real): (r: NU)
    ensures r.n == a * x.n && r.u == Abs(a) * x.u
  {
    MulNonNegative(Abs(a), x.u);
    Make(a * x.n, Abs(a) * x.u)
  }

  /** a * x + b: the offset b moves n and never touches u. */
  function Affine(x: NU, a: real, b: real): (r: NU)
    ensures r.n == a * x.n + b && r.u == Abs(a) * x.u
    ensures r.u == Scalar(x, a).u && r.n - b == Scalar(x, a).n
  {
    MulNonNegative(Abs(a), x.u);
    Make(a * x.n + b, Abs(a) * x.u)
  }

  // ==================== Special operators ====================

  /** Collapses the nominal into the uncertainty, keeping |n| + u. */
  function Catch(x: NU): (r: NU)
    ensures r.n == 0.0 && Invariant(r) == Invariant(x)
    ensures LowerBound(r) <= LowerBound(x) && UpperBound(x) <= UpperBound(r)
  {
    assert Abs(x.n) + x.u >= 0.0;
    Make(0.0, Abs(x.n) + x.u)
  }

  /** Swaps the roles of n and u, keeping |n| + u. */
  function Flip(x: NU): (r: NU)
    ensures r.n == x.u && r.u == Abs(x.n)
    ensures Invariant(r) == Invariant(x)
  {
    Make(x.u, Abs(x.n))
  }

  // ==================== Derived accessors ====================

  /** M(n, u) = |n| + u. */
  function Invariant(x: NU): (m: real)
    ensures m >= x.u && m >= Abs(x.n) && m - x.u == Abs(x.n)
  {
    Abs(x.n) + x.u
  }

  function LowerBound(x: NU): (lo: real)
    ensures lo <= x.n && x.n - lo == x.u
  {
    x.n - x.u
  }

  function UpperBound(x: NU): (hi: real)
    ensures x.n <= hi && hi - x.n == x.u
  {
    x.n + x.u
  }

  /** The interval [n - u, n + u], centred on n and 2u wide. */
  function Interval(x: NU): (bounds: (real, real))
    ensures bounds.0 <= x.n <= bounds.1
    ensures bounds.1 - bounds.0 == 2.0 * x.u && bounds.0 + bounds.1 == 2.0 * x.n
  {
    (LowerBound(x), UpperBound(x))
  }

  /** u / |n|, or Infinite exactly when n = 0. */
  function RelativeUncertainty(x: NU): (r: Ratio)
    ensures r.Infinite? <==> x.n == 0.0
    ensures r.Finite? ==> r.value >= 0.0 && r.value * Abs(x.n) == x.u
  {
    if x.n == 0.0 then Infinite else Finite(x.u / Abs(x.n))
  }

  /** |n| > u: the interval excludes zero (touching zero is not stable). */
  function IsSignStable(x: NU): (stable: bool)
    ensures stable <==> (0.0 < LowerBound(x) || UpperBound(x) < 0.0)
  {
    Abs(x.n) > x.u
  }

  /** v lies in the closed band [n - u, n + u] of the pair x (any u). */
  predicate Contains(x: NUPair, v: real)
  {
    x.n - x.u <= v <= x.n + x.u
  }

  // ==================== Operator sugar ====================
  // nu + nu is Add, nu - nu is Sub, nu * nu is Mul, nu * a and a * nu are
  // Scalar; the scalar operands of + and - go through Affine with a = 1.

  /** nu + b for a plain number b. */
  function AddScalar(x: NU, b: real): (r: NU)
    ensures r.n == x.n + b && r.u == x.u
  {
    Affine(x, 1.0, b)
  }

  /** nu - b for a plain number b. */
  function SubScalar(x: NU, b: real): (r: NU)
    ensures r.n == x.n - b && r.u == x.u
  {
    Affine(x, 1.0, -b)
  }

  /** -nu, as scaling by -1. */
  function Negate(x: NU): (r: NU)
    ensures r.n == -x.n && r.u == x.u
  {
    Scalar(x, -1.0)
  }

  /** abs(nu): the nominal's magnitude, the uncertainty unchanged. */
  function Absolute(x: NU): (r: NU)
    ensures r.n >= 0.0 && (r.n == x.n || r.n == -x.n) && r.u == x.u
    ensures Invariant(r) == Invariant(x)
  {
    Make(Abs(x.n), x.u)
  }

  /** Functional aliases of the module. */
  function NUAdd(x: NU, y: NU): (r: NU)
    ensures r.n == x.n + y.n && r.u == x.u + y.u
  {
    Add(x, y)
  }

  function NUMul(x: NU, y: NU): (r: NU)
    ensures r.n == x.n * y.n && r.u == Abs(x.n) * y.u + Abs(y.n) * x.u
  {
    Mul(x, y)
  }

  function NUScalar(a: real, x: NU): (r: NU)
    ensures r.n == a * x.n && r.u == Abs(a) * x.u
  {
    Scalar(x, a)
  }

  // ==================== Algebraic laws ====================

  lemma AddRightIdentity(x: NU)
    ensures Add(x, NUPair(0.0, 0.0)) == x
  {
  }

  lemma AddCommutativeAssociative(a: NU, b: NU, c: NU)
    ensures Add(a, b) == Add(b, a)
    ensures Add(Add(a, b), c) == Add(a, Add(b, c))
  {
  }

  /** Subtracting b is adding its negation. */
  lemma SubIsAddNegate(a: NU, b: NU)
    ensures Sub(a, b) == Add(a, Negate(b))
  {
  }

  lemma MulCommutative(a: NU, b: NU)
    ensures Mul(a, b) == Mul(b, a)
  {
    assert a.n * b.n == b.n * a.n;
  }

  /** NU(1, 0) is the identity of Mul, the empty product. */
  lemma MulOneIdentity(x: NU)
    ensures Mul(x, NUPair(1.0, 0.0)) == x
  {
  }

  /** The offset of Affine never reaches u, and a zero offset is Scalar. */
  lemma AffineOffsetIndependent(x: NU, a: real, b1: real, b2: real)
    ensures Affine(x, a, b1).u == Affine(x, a, b2).u
    ensures Affine(x, a, 0.0) == Scalar(x, a)
  {
  }

  /** Catch is idempotent. */
  lemma CatchIdempotent(x: NU)
    ensures Catch(Catch(x)) == Catch(x)
  {
  }

  /** Catch ignores a preceding Flip. */
  lemma CatchAfterFlip(x: NU)
    ensures Catch(Flip(x)) == Catch(x)
  {
  }

  /** Flipping twice gives the absolute value. */
  lemma FlipTwice(x: NU)
    ensures Flip(Flip(x)) == Absolute(x)
  {
  }

  // ==================== Conservativeness ====================

  /** Add, Sub and Affine enclose every combination of enclosed values. */
  lemma LinearEncloses(a: NU, b: NU, p: real, q: real, c: real, d: real)
    requires Contains(a, p) && Contains(b, q)
    ensures Contains(Add(a, b), p + q)
    ensures Contains(Sub(a, b), p - q)
    ensures Contains(Affine(a, c, d), c * p + d)
  {
    var dp := p - a.n;
    assert Abs(dp) <= a.u;
    MulBound(c, dp, Abs(c), a.u);
    assert c * p + d - (c * a.n + d) == c * dp;
  }

  /** Mul is first order: it encloses p * q once the neglected term u1 * u2 is added. */
  lemma MulEnclosesToFirstOrder(a: NU, b: NU, p: real, q: real)
    requires Contains(a, p) && Contains(b, q)
    ensures Abs(p * q - a.n * b.n) <= Mul(a, b).u + a.u * b.u
  {
    FirstOrderProductBound(a.n, a.u, b.n, b.u, p, q);
  }

  /** |p q - n1 n2| <= |n1| u2 + |n2| u1 + u1 u2 when |p - n1| <= u1 and |q - n2| <= u2. */
  lemma FirstOrderProductBound(n1: real, u1: real, n2: real, u2: real, p: real, q: real)
    requires Abs(p - n1) <= u1 && Abs(q - n2) <= u2
    ensures Abs(p * q - n1 * n2) <= Abs(n1) * u2 + Abs(n2) * u1 + u1 * u2
  {
    ProductExpansion(p, q, n1, n2);
    NominalTimesDeviation(n1, n2, u2, q);
    NominalTimesDeviation(n2, n1, u1, p);
    DeviationProductBound(n1, u1, n2, u2, p, q);
  }

  lemma NominalTimesDeviation(n1: real, n2: real, u2: real, q: real)
    requires Abs(q - n2) <= u2
    ensures Abs(n1 * (q - n2)) <= Abs(n1) * u2
  {
    MulBound(n1, q - n2, Abs(n1), u2);
  }

  lemma DeviationProductBound(n1: real, u1: real, n2: real, u2: real, p: real, q: real)
    requires Abs(p - n1) <= u1 && Abs(q - n2) <= u2
    ensures Abs((p - n1) * (q - n2)) <= u1 * u2
  {
    MulBound(p - n1, q - n2, u1, u2);
  }

  lemma ProductExpansion(p: real, q: real, n1: real, n2: real)
    ensures p * q - n1 * n2 == n1 * (q - n2) + n2 * (p - n1) + (p - n1) * (q - n2)
  {
  }

  /** Without the second-order term the product can leave the interval. */
  lemma MulIsNotEnclosing()
    ensures Contains(NUPair(1.0, 1.0), 2.0)
    ensures !Contains(Mul(NUPair(1.0, 1.0), NUPair(1.0, 1.0)), 2.0 * 2.0)
  {
  }

  /** The interval of a value is inside the interval of its Catch. */
  lemma CatchEncloses(x: NU, v: real)
    requires Contains(x, v)
    ensures Contains(Catch(x), v)
  {
  }

  /** Sign stability holds iff |n| > u, i.e. no value in the interval is 0. */
  lemma SignStableExcludesZero(x: NU)
    ensures IsSignStable(x) <==> Abs(x.n) > x.u
    ensures IsSignStable(x) <==> !Contains(x, 0.0)
    ensures !IsSignStable(NUPair(2.0, 2.0))
  {
  }

  /** The examples of the module's documentation. */
  lemma DocExamples()
    ensures Add(NUPair(2.00, 0.05), NUPair(1.20, 0.02)) == NUPair(3.20, 0.07)
    ensures Add(NUPair(10.0, 1.0), NUPair(5.0, 0.5)) == NUPair(15.0, 1.5)
    ensures Sub(NUPair(10.0, 1.0), NUPair(5.0, 0.5)) == NUPair(5.0, 1.5)
    ensures Mul(NUPair(4.0, 0.1), NUPair(3.0, 0.2)) == NUPair(12.0, 1.1)
    ensures Scalar(NUPair(10.0, 1.0), 2.5) == NUPair(25.0, 2.5)
    ensures Affine(NUPair(10.0, 1.0), 2.0, 5.0) == NUPair(25.0, 2.0)
    ensures Catch(NUPair(5.0, 2.0)) == NUPair(0.0, 7.0)
    ensures Flip(NUPair(5.0, 2.0)) == NUPair(2.0, 5.0)
    ensures Invariant(NUPair(5.0, 2.0)) == 7.0 == Invariant(Catch(NUPair(5.0, 2.0)))
  {
  }

  // ==================== Integer power ====================

  function RealPow(b: real, k: nat): real
  {
    if k == 0 then 1.0 else RealPow(b, k - 1) * b
  }

  lemma {:induction false} AbsPow(b: real, k: nat)
    ensures Abs(RealPow(b, k)) == RealPow(Abs(b), k)
  {
    if k > 0 {
      AbsPow(b, k - 1);
      AbsMul(RealPow(b, k - 1), b);
    }
  }

  /** x multiplied by itself k times through Mul, left to right. */
  function PowSpec(x: NU, k: nat): NU
    requires k >= 1
  {
    if k == 1 then x else Mul(PowSpec(x, k - 1), x)
  }

  /** The uncertainty the power rule predicts for x^k, by its recurrence. */
  function PowUncertainty(a: real, u: real, k: nat): real
    requires k >= 1
  {
    if k == 1 then u else RealPow(a, k - 1) * u + a * PowUncertainty(a, u, k - 1)
  }

  /** k * a^(k-1) * u: the derivative of n^k times u. */
  function PowerRule(a: real, u: real, k: nat): real
    requires k >= 1
  {
    (k as real) * RealPow(a, k - 1) * u
  }

  /** The recurrence solves to the power rule k * a^(k-1) * u. */
  lemma {:induction false} PowUncertaintyClosedForm(a: real, u: real, k: nat)
    requires k >= 1
    ensures PowUncertainty(a, u, k) == PowerRule(a, u, k)
  {
    if k > 1 {
      PowUncertaintyClosedForm(a, u, k - 1);
      assert RealPow(a, k - 1) == RealPow(a, k - 2) * a;
    }
  }

  /** One more factor of x turns n^(k-1) into n^k. */
  lemma MulNominalStep(p: NU, x: NU, k: nat)
    requires k >= 1 && p.n == RealPow(x.n, k - 1)
    ensures Mul(p, x).n == RealPow(x.n, k)
  {
  }

  lemma MulUncertaintyByMagnitude(n1: real, u1: real, n2: real, u2: real, m: real)
    requires Abs(n1) == m
    ensures MulUncertainty(n1, u1, n2, u2) == m * u2 + Abs(n2) * u1
  {
  }

  /** Multiplying n^(k-1) by n advances the uncertainty recurrence by one. */
  lemma MulUncertaintyOfPower(n: real, u: real, k: nat)
    requires k >= 2
    ensures MulUncertainty(RealPow(n, k - 1), PowUncertainty(Abs(n), u, k - 1), n, u)
         == PowUncertainty(Abs(n), u, k)
  {
    AbsPow(n, k - 1);
    MulUncertaintyByMagnitude(RealPow(n, k - 1), PowUncertainty(Abs(n), u, k - 1), n, u, RealPow(Abs(n), k - 1));
  }

  /** x^k has nominal n^k and the uncertainty of the recurrence. */
  lemma {:induction false} PowClosedForm(x: NU, k: nat)
    requires k >= 1
    ensures PowSpec(x, k).n == RealPow(x.n, k)
    ensures PowSpec(x, k).u == PowUncertainty(Abs(x.n), x.u, k)
  {
    if k == 1 {
      assert RealPow(x.n, 1) == RealPow(x.n, 0) * x.n;
    } else {
      PowClosedForm(x, k - 1);
      assert PowSpec(x, k) == Mul(PowSpec(x, k - 1), x);
      MulNominalStep(PowSpec(x, k - 1), x, k);
      MulUncertaintyOfPower(x.n, x.u, k);
    }
  }

  /** The power rule: x^k = (n^k, k * |n|^(k-1) * u). */
  lemma PowRule(x: NU, k: nat)
    requires k >= 1
    ensures PowSpec(x, k).n == RealPow(x.n, k)
    ensures PowSpec(x, k).u == PowerRule(Abs(x.n), x.u, k)
  {
    PowClosedForm(x, k);
    PowUncertaintyClosedForm(Abs(x.n), x.u, k);
  }

  lemma PowExample()
    ensures PowSpec(NUPair(3.0, 0.1), 2) == NUPair(9.0, 0.6)
  {
  }

  /** Repeated multiplication; exponents below 1 are refused. */
  method Pow(x: NU, exponent: int) returns (r: Result<NU>)
    ensures exponent < 1 <==> r == Failure(InvalidExponent)
    ensures exponent >= 1 ==> r.Success? && r.value == PowSpec(x, exponent)
    ensures exponent >= 1 ==>
      (r.Success? && r.value.n == RealPow(x.n, exponent) && r.value.u == PowerRule(Abs(x.n), x.u, exponent))
  {
    if exponent < 1 {
      return Failure(InvalidExponent);
    }
    var result := x;
    for i := 1 to exponent
      invariant result == PowSpec(x, i)
    {
      result := Mul(result, x);
    }
    PowRule(x, exponent);
    r := Success(result);
  }

  // ==================== Cumulative sum ====================

  /** Left fold of Add from the first element; NU(0, 0) when empty. */
  function SumFold(xs: seq<NU>): NU
  {
    if |xs| == 0 then NUPair(0.0, 0.0)
    else if |xs| == 1 then xs[0]
    else Add(SumFold(xs[..|xs| - 1]), xs[|xs| - 1])
  }

  function SumN(xs: seq<NU>): real
  {
    if |xs| == 0 then 0.0 else SumN(xs[..|xs| - 1]) + xs[|xs| - 1].n
  }

  function SumU(xs: seq<NU>): real
  {
    if |xs| == 0 then 0.0 else SumU(xs[..|xs| - 1]) + xs[|xs| - 1].u
  }

  /** The fold is (sum of the n_i, sum of the u_i). */
  lemma {:induction false} SumFoldClosedForm(xs: seq<NU>)
    ensures SumFold(xs) == NUPair(SumN(xs), SumU(xs))
  {
    if |xs| > 1 {
      SumFoldClosedForm(xs[..|xs| - 1]);
    } else if |xs| == 1 {
      assert xs[..0] == [];
    }
  }

  method CumulativeSum(xs: seq<NU>) returns (r: NU)
    ensures r == SumFold(xs)
    ensures |xs| == 0 ==> r == NUPair(0.0, 0.0)
    ensures r.n == SumN(xs) && r.u == SumU(xs)
  {
    if |xs| == 0 {
      return NUPair(0.0, 0.0);
    }
    r := xs[0];
    for i := 1 to |xs|
      invariant r == SumFold(xs[..i])
    {
      assert xs[..i + 1][..i] == xs[..i];
      r := Add(r, xs[i]);
    }
    assert xs[..|xs|] == xs;
    SumFoldClosedForm(xs);
  }

  /** The documented sum of (1, 0.1), (2, 0.2) and (3, 0.3). */
  lemma SumDocExample()
    ensures SumFold([NUPair(1.0, 0.1), NUPair(2.0, 0.2), NUPair(3.0, 0.3)]) == NUPair(6.0, 0.6)
  {
    SumFoldClosedForm([NUPair(1.0, 0.1), NUPair(2.0, 0.2), NUPair(3.0, 0.3)]);
    SumsOfThree(NUPair(1.0, 0.1), NUPair(2.0, 0.2), NUPair(3.0, 0.3));
  }

  // ==================== Cumulative product ====================

  /** Left fold of Mul from the first element; NU(1, 0) when empty. */
  function ProductFold(xs: seq<NU>): NU
  {
    if |xs| == 0 then NUPair(1.0, 0.0)
    else if |xs| == 1 then xs[0]
    else Mul(ProductFold(xs[..|xs| - 1]), xs[|xs| - 1])
  }

  function ProductN(xs: seq<NU>): real
  {
    if |xs| == 0 then 1.0 else ProductN(xs[..|xs| - 1]) * xs[|xs| - 1].n
  }

  /** The nominal of the product is the product of the nominals. */
  lemma {:induction false} ProductFoldNominal(xs: seq<NU>)
    ensures ProductFold(xs).n == ProductN(xs)
  {
    if |xs| > 1 {
      ProductFoldNominal(xs[..|xs| - 1]);
      assert ProductFold(xs) == Mul(ProductFold(xs[..|xs| - 1]), xs[|xs| - 1]);
      MulNominalOf(ProductFold(xs[..|xs| - 1]), xs[|xs| - 1], ProductN(xs[..|xs| - 1]));
    } else if |xs| == 1 {
      assert xs[..0] == [];
    }
  }

  lemma MulNominalOf(p: NU, y: NU, c: real)
    requires p.n == c
    ensures Mul(p, y).n == c * y.n
  {
  }

  /** Exact factors (all u = 0) give an exact product. */
  lemma {:induction false} ProductFoldExact(xs: seq<NU>)
    requires forall i :: 0 <= i < |xs| ==> xs[i].u == 0.0
    ensures ProductFold(xs).u == 0.0
  {
    if |xs| > 1 {
      ProductFoldExact(xs[..|xs| - 1]);
      MulExact(ProductFold(xs[..|xs| - 1]), xs[|xs| - 1]);
    }
  }

  lemma MulExact(a: NU, b: NU)
    requires a.u == 0.0 && b.u == 0.0
    ensures Mul(a, b).u == 0.0
  {
  }

  /** The product of k copies of x is x^k. */
  lemma {:induction false} ProductOfCopiesIsPow(x: NU, k: nat)
    requires k >= 1
    ensures ProductFold(seq(k, _ => x)) == PowSpec(x, k)
  {
    if k > 1 {
      ProductOfCopiesIsPow(x, k - 1);
      assert seq(k, _ => x)[..k - 1] == seq(k - 1, _ => x);
    }
  }

  method CumulativeProduct(xs: seq<NU>) returns (r: NU)
    ensures r == ProductFold(xs)
    ensures |xs| == 0 ==> r == NUPair(1.0, 0.0)
    ensures r.n == ProductN(xs)
  {
    if |xs| == 0 {
      return NUPair(1.0, 0.0);
    }
    r := xs[0];
    for i := 1 to |xs|
      invariant r == ProductFold(xs[..i])
    {
      assert xs[..i + 1][..i] == xs[..i];
      r := Mul(r, xs[i]);
    }
    assert xs[..|xs|] == xs;
    ProductFoldNominal(xs);
  }

  /** What the fold gives for the documented three-factor example. */
  lemma ProductDocExample()
    ensures ProductFold([NUPair(2.0, 0.1), NUPair(3.0, 0.2), NUPair(4.0, 0.1)]) == NUPair(24.0, 3.4)
  {
    var xs: seq<NU> := [NUPair(2.0, 0.1), NUPair(3.0, 0.2), NUPair(4.0, 0.1)];
    assert xs[..2][..1] == [NUPair(2.0, 0.1)];
    assert ProductFold(xs[..2]) == NUPair(6.0, 0.7);
  }

  /** The documented value NU(24, 5.2) is not what the fold computes. */
  lemma ProductDocClaimFails()
    ensures ProductFold([NUPair(2.0, 0.1), NUPair(3.0, 0.2), NUPair(4.0, 0.1)]) != NUPair(24.0, 5.2)
  {
    ProductDocExample();
  }

  // ==================== Weighted mean ====================

  /** The sum of the weights, added left to right from 0. */
  function RealSum(ws: seq<real>): real
  {
    if |ws| == 0 then 0.0 else RealSum(ws[..|ws| - 1]) + ws[|ws| - 1]
  }

  /** The default weights: k copies of 1.0. */
  function Ones(k: nat): (ws: seq<real>)
    ensures |ws| == k && forall i :: 0 <= i < k ==> ws[i] == 1.0
  {
    seq(k, _ => 1.0)
  }

  /** Each value scaled by the weight at the same position. */
  function ScaleEach(xs: seq<NU>, ws: seq<real>): (ys: seq<NU>)
    requires |xs| == |ws|
    ensures |ys| == |xs|
    ensures forall i :: 0 <= i < |xs| ==> ys[i] == Scalar(xs[i], ws[i])
  {
    if |xs| == 0 then []
    else ScaleEach(xs[..|xs| - 1], ws[..|ws| - 1]) + [Scalar(xs[|xs| - 1], ws[|ws| - 1])]
  }

  /** Sum of w_i * n_i. */
  function WeightedN(xs: seq<NU>, ws: seq<real>): real
    requires |xs| == |ws|
  {
    if |xs| == 0 then 0.0
    else WeightedN(xs[..|xs| - 1], ws[..|ws| - 1]) + ws[|ws| - 1] * xs[|xs| - 1].n
  }

  /** Sum of |w_i| * u_i. */
  function WeightedU(xs: seq<NU>, ws: seq<real>): real
    requires |xs| == |ws|
  {
    if |xs| == 0 then 0.0
    else WeightedU(xs[..|xs| - 1], ws[..|ws| - 1]) + Abs(ws[|ws| - 1]) * xs[|xs| - 1].u
  }

  lemma {:induction false} ScaledSums(xs: seq<NU>, ws: seq<real>)
    requires |xs| == |ws|
    ensures SumN(ScaleEach(xs, ws)) == WeightedN(xs, ws)
    ensures SumU(ScaleEach(xs, ws)) == WeightedU(xs, ws)
  {
    if |xs| > 0 {
      var ys := ScaleEach(xs, ws);
      assert ys[..|ys| - 1] == ScaleEach(xs[..|xs| - 1], ws[..|ws| - 1]);
      ScaledSums(xs[..|xs| - 1], ws[..|ws| - 1]);
    }
  }

  /** The weights in force: the given ones, or all 1 when none are given. */
  function EffectiveWeights(xs: seq<NU>, weights: Option<seq<real>>): (ws: seq<real>)
    ensures weights.None? ==> ws == Ones(|xs|)
    ensures weights.Some? ==> ws == weights.value
  {
    if weights.None? then Ones(|xs|) else weights.value
  }

  /** Weighted mean: sum of w_i * x_i scaled by 1 / W with W = sum w_i,
      after refusing an empty list, a weight count that differs, and W = 0. */
  function WeightedMean(xs: seq<NU>, weights: Option<seq<real>>): (r: Result<NU>)
    ensures |xs| == 0 <==> r == Failure(EmptyInput)
    ensures r == Failure(LengthMismatch) <==> |xs| > 0 && |EffectiveWeights(xs, weights)| != |xs|
    ensures r == Failure(ZeroTotalWeight) <==>
      |xs| > 0 && |EffectiveWeights(xs, weights)| == |xs| && RealSum(EffectiveWeights(xs, weights)) == 0.0
  {
    if |xs| == 0 then Failure(EmptyInput)
    else
      var ws := EffectiveWeights(xs, weights);
      if |ws| != |xs| then Failure(LengthMismatch)
      else
        var total := RealSum(ws);
        if total == 0.0 then Failure(ZeroTotalWeight)
        else Success(Scalar(SumFold(ScaleEach(xs, ws)), 1.0 / total))
  }

  lemma AbsReciprocal(t: real)
    requires t != 0.0
    ensures Abs(1.0 / t) == 1.0 / Abs(t)
  {
  }

  /** A successful mean is (sum w_i n_i / W, sum |w_i| u_i / |W|). */
  lemma WeightedMeanClosedForm(xs: seq<NU>, ws: seq<real>)
    requires |xs| > 0 && |ws| == |xs| && RealSum(ws) != 0.0
    ensures WeightedMean(xs, Some(ws)).Success?
    ensures WeightedMean(xs, Some(ws)).value.n == WeightedN(xs, ws) / RealSum(ws)
    ensures WeightedMean(xs, Some(ws)).value.u == WeightedU(xs, ws) / Abs(RealSum(ws))
  {
    var ys := ScaleEach(xs, ws);
    SumFoldClosedForm(ys);
    ScaledSums(xs, ws);
    AbsReciprocal(RealSum(ws));
    ScaledTotal(SumFold(ys), RealSum(ws));
  }

  /** Scaling by 1 / W divides both components by W and |W|. */
  lemma ScaledTotal(x: NU, t: real)
    requires t != 0.0
    ensures Scalar(x, 1.0 / t).n == x.n / t
    ensures Scalar(x, 1.0 / t).u == x.u / Abs(t)
  {
    AbsReciprocal(t);
  }

  lemma {:induction false} DefaultWeightSums(xs: seq<NU>)
    ensures RealSum(Ones(|xs|)) == |xs| as real
    ensures WeightedN(xs, Ones(|xs|)) == SumN(xs)
    ensures WeightedU(xs, Ones(|xs|)) == SumU(xs)
  {
    if |xs| > 0 {
      assert Ones(|xs|)[..|xs| - 1] == Ones(|xs| - 1);
      DefaultWeightSums(xs[..|xs| - 1]);
    }
  }

  /** With the default weights the mean divides both sums by the count. */
  lemma DefaultWeightsArePlainMean(xs: seq<NU>)
    requires |xs| > 0
    ensures WeightedMean(xs, None).Success?
    ensures WeightedMean(xs, None).value == NUPair(SumN(xs) / (|xs| as real), SumU(xs) / (|xs| as real))
  {
    DefaultWeightSums(xs);
    WeightedMeanClosedForm(xs, Ones(|xs|));
    assert WeightedMean(xs, None) == WeightedMean(xs, Some(Ones(|xs|)));
  }

  lemma SumsOfThree(a: NU, b: NU, c: NU)
    ensures SumN([a, b, c]) == a.n + b.n + c.n
    ensures SumU([a, b, c]) == a.u + b.u + c.u
  {
    assert [a][..0] == [];
    assert SumN([a]) == a.n && SumU([a]) == a.u;
    assert [a, b][..1] == [a];
    assert SumN([a, b]) == a.n + b.n && SumU([a, b]) == a.u + b.u;
    assert [a, b, c][..2] == [a, b];
  }

  /** The documented mean of (10, 1), (12, 1.5) and (11, 0.8). */
  lemma WeightedMeanExample()
    ensures WeightedMean([NUPair(10.0, 1.0), NUPair(12.0, 1.5), NUPair(11.0, 0.8)], None) == Success(NUPair(11.0, 1.1))
  {
    DefaultWeightsArePlainMean([NUPair(10.0, 1.0), NUPair(12.0, 1.5), NUPair(11.0, 0.8)]);
    SumsOfThree(NUPair(10.0, 1.0), NUPair(12.0, 1.5), NUPair(11.0, 0.8));
  }

  /** Each failure mode on a small input. */
  lemma WeightedMeanFailureExamples()
    ensures WeightedMean([], Some([1.0])) == Failure(EmptyInput)
    ensures WeightedMean([NUPair(1.0, 0.0)], Some([1.0, 2.0])) == Failure(LengthMismatch)
    ensures WeightedMean([NUPair(1.0, 0.0), NUPair(2.0, 0.0)], Some([1.0, -1.0])) == Failure(ZeroTotalWeight)
  {
    var ws := [1.0, -1.0];
    assert ws[..1] == [1.0];
    assert RealSum(ws) == 0.0;
  }
}
