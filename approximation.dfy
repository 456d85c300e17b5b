/** A least-squares fit of a weighted sum of basis functions to timing
    samples: the design matrix, the coefficient vector from the normal
    equations, evaluation of the fitted function and its mean squared error. */
module Approximation {
  import opened Matrix
  import opened Scalar

  /** The basis functions of one complexity class, in their fixed order. */
  type Basis = seq<real -> real>

  /** A measurement: (problem size, measured time). */
  type Sample = (real, real)

  /** The basis, the samples it was fitted to, and one factor per basis function. */
  datatype Approximation = Approximation(base: Basis, measurements: seq<Sample>, factors: Vector)

  predicate WellFormed(a: Approximation) {
    |a.factors| == |a.base|
  }

  /** [base[0](x), ..., base[k-1](x)]. */
  function Row(base: Basis, x: real): (r: Vector)
    ensures |r| == |base| && forall j {:trigger r[j]} :: 0 <= j < |base| ==> r[j] == base[j](x)
  {
    seq(|base|, j requires 0 <= j < |base| => base[j](x))
  }

  /** The m×k matrix A with A[i][j] = base[j](x_i). */
  function DesignMatrix(base: Basis, ms: seq<Sample>): (A: Mat)
    ensures IsMatrix(A, |ms|, |base|)
    ensures forall i {:trigger A[i]} :: 0 <= i < |ms| ==> A[i] == Row(base, ms[i].0)
  {
    seq(|ms|, i requires 0 <= i < |ms| => Row(base, ms[i].0))
  }

  /** The observation column b with b[i] = y_i. */
  function Observations(ms: seq<Sample>): (b: Vector)
    ensures |b| == |ms| && forall i {:trigger b[i]} :: 0 <= i < |ms| ==> b[i] == ms[i].1
  {
    seq(|ms|, i requires 0 <= i < |ms| => ms[i].1)
  }

  /** AᵀA for an m×k matrix A. */
  function Gram(A: Mat, k: nat): (B: Mat)
    requires IsMatrix(A, |A|, k)
    ensures IsMatrix(B, k, k)
  {
    MatMul(Transpose(A, k), A, k)
  }

  function NormalMatrix(base: Basis, ms: seq<Sample>): (B: Mat)
    ensures IsMatrix(B, |base|, |base|)
  {
    Gram(DesignMatrix(base, ms), |base|)
  }

  /** The fit is determined: AᵀA is invertible (numpy's inv would raise otherwise). */
  ghost predicate Fittable(base: Basis, ms: seq<Sample>) {
    Invertible(NormalMatrix(base, ms))
  }

  /** x solves the normal equations AᵀA·x = Aᵀb. */
  predicate NormalEquations(A: Mat, b: Vector, k: nat, x: Vector)
    requires IsMatrix(A, |A|, k) && |b| == |A|
  {
    |x| == k && MatVec(Gram(A, k), x) == MatVec(Transpose(A, k), b)
  }

  /** factors = (AᵀA)⁻¹·Aᵀ·b: the one solution of the normal equations. */
  function FactorsVector(A: Mat, b: Vector, k: nat): (x: Vector)
    requires IsMatrix(A, |A|, k) && |b| == |A| && Invertible(Gram(A, k))
    ensures NormalEquations(A, b, k, x)
    ensures forall y {:trigger NormalEquations(A, b, k, y)} :: NormalEquations(A, b, k, y) ==> y == x
  {
    var At := Transpose(A, k);
    var Bi := Inverse(Gram(A, k));
    var x := MatVec(MatMul(Bi, At, |A|), b);
    SolvesNormalEquations(A, b, k, Bi, x);
    x
  }

  lemma SolvesNormalEquations(A: Mat, b: Vector, k: nat, Bi: Mat, x: Vector)
    requires IsMatrix(A, |A|, k) && |b| == |A| && IsInverse(Gram(A, k), Bi)
    requires x == MatVec(MatMul(Bi, Transpose(A, k), |A|), b)
    ensures NormalEquations(A, b, k, x)
    ensures forall y {:trigger NormalEquations(A, b, k, y)} :: NormalEquations(A, b, k, y) ==> y == x
  {
    var At, B := Transpose(A, k), Gram(A, k);
    var c := MatVec(At, b);
    MatVecAssoc(Bi, At, |A|, b);
    InverseSolves(B, Bi, c, x);
    forall y | NormalEquations(A, b, k, y) ensures y == x {
      InverseSolves(B, Bi, c, y);
    }
  }

  /** The same solve for a two-term basis, by the closed-form inverse of the
      2×2 matrix AᵀA: it satisfies the normal equations and agrees with the
      general solve. */
  function FactorsVector2(A: Mat, b: Vector): (x: Vector)
    requires IsMatrix(A, |A|, 2) && |b| == |A| && Det2(Gram(A, 2)) != 0.0
    ensures NormalEquations(A, b, 2, x)
    ensures Invertible(Gram(A, 2)) && x == FactorsVector(A, b, 2)
  {
    var Bi := Inverse2(Gram(A, 2));
    var x := MatVec(MatMul(Bi, Transpose(A, 2), |A|), b);
    SolvesNormalEquations(A, b, 2, Bi, x);
    x
  }

  /** `Approximation(base, measurements)`: keeps both and fits the factors once. */
  function Fit(base: Basis, ms: seq<Sample>): (a: Approximation)
    requires Fittable(base, ms)
    ensures a.base == base && a.measurements == ms && WellFormed(a)
    ensures NormalEquations(DesignMatrix(base, ms), Observations(ms), |base|, a.factors)
  {
    Approximation(base, ms, FactorsVector(DesignMatrix(base, ms), Observations(ms), |base|))
  }

  /** The factors of a fit, built the way `__calculate_factors` builds them:
      the rows of A and the entries of b appended one at a time. */
  method CalculateFactors(base: Basis, ms: seq<Sample>) returns (factors: Vector)
    requires Fittable(base, ms)
    ensures NormalEquations(DesignMatrix(base, ms), Observations(ms), |base|, factors)
    ensures factors == Fit(base, ms).factors
  {
    var multiplier: Mat := [];
    var values: Vector := [];
    for i := 0 to |ms|
      invariant |multiplier| == i && |values| == i
      invariant forall r :: 0 <= r < i ==> multiplier[r] == Row(base, ms[r].0)
      invariant forall r :: 0 <= r < i ==> values[r] == ms[r].1
    {
      var (x, y) := ms[i];
      var row: Vector := [];
      values := values + [y];
      for j := 0 to |base|
        invariant |row| == j && forall c :: 0 <= c < j ==> row[c] == base[c](x)
      {
        row := row + [base[j](x)];
      }
      multiplier := multiplier + [row];
    }
    assert multiplier == DesignMatrix(base, ms);
    assert values == Observations(ms);
    factors := FactorsVector(multiplier, values, |base|);
  }

  /** The fitted function: Σ factors[i]·base[i](x). */
  function Evaluate(a: Approximation, x: real): real
    requires WellFormed(a)
  {
    Dot(a.factors, Row(a.base, x))
  }

  /** `approximation(x)`: the sum accumulated term by term. Evaluation has no
      state, so two calls at the same x agree. */
  method Call(a: Approximation, x: real) returns (value: real)
    requires WellFormed(a)
    ensures value == Evaluate(a, x)
  {
    value := 0.0;
    for i := 0 to |a.base|
      invariant value == Dot(a.factors[..i], Row(a.base, x)[..i])
    {
      assert a.factors[..i + 1][..i] == a.factors[..i];
      assert Row(a.base, x)[..i + 1][..i] == Row(a.base, x)[..i];
      value := value + a.factors[i] * a.base[i](x);
    }
    assert a.factors[..|a.base|] == a.factors;
    assert Row(a.base, x)[..|a.base|] == Row(a.base, x);
  }

  /** The fitted values at the stored sizes are the entries of A·factors. */
  lemma FittedValues(a: Approximation)
    requires WellFormed(a)
    ensures forall i :: 0 <= i < |a.measurements| ==>
      MatVec(DesignMatrix(a.base, a.measurements), a.factors)[i] == Evaluate(a, a.measurements[i].0)
  {
    forall i | 0 <= i < |a.measurements|
      ensures Dot(Row(a.base, a.measurements[i].0), a.factors) == Evaluate(a, a.measurements[i].0)
    {
      DotCommutes(Row(a.base, a.measurements[i].0), a.factors);
    }
  }

  /** Σ (y − approx(x))² over the samples ms, accumulated first to last. */
  function SquaredError(a: Approximation, ms: seq<Sample>): (e: real)
    requires WellFormed(a)
    ensures e >= 0.0
    decreases |ms|
  {
    if |ms| == 0 then 0.0
    else
      var (x, y) := ms[|ms| - 1];
      var d := y - Evaluate(a, x);
      SquaredError(a, ms[..|ms| - 1]) + Square(d)
  }

  /** The mean squared error of the fit over its own samples. */
  function Mse(a: Approximation): (m: real)
    requires WellFormed(a) && |a.measurements| > 0
    ensures m >= 0.0
  {
    SquaredError(a, a.measurements) / (|a.measurements| as real)
  }

  /** `mean_squared_error`: the error summed in a loop, then divided by the
      number of samples (so at least one sample is needed). */
  method MeanSquaredError(a: Approximation) returns (mse: real)
    requires WellFormed(a) && |a.measurements| > 0
    ensures mse == Mse(a) && mse >= 0.0
  {
    var error := 0.0;
    var ms := a.measurements;
    for i := 0 to |ms|
      invariant error == SquaredError(a, ms[..i])
    {
      var (x, y) := ms[i];
      var approx := Call(a, x);
      assert ms[..i + 1][..i] == ms[..i];
      error := error + (y - approx) * (y - approx);
    }
    assert ms[..|ms|] == ms;
    mse := error / (|ms| as real);
  }

  /** The error sum is zero exactly when every sample lies on the fitted curve. */
  lemma {:induction false} SquaredErrorZero(a: Approximation, ms: seq<Sample>)
    requires WellFormed(a)
    ensures SquaredError(a, ms) == 0.0 <==> forall i :: 0 <= i < |ms| ==> ms[i].1 == Evaluate(a, ms[i].0)
    decreases |ms|
  {
    if |ms| > 0 {
      var n := |ms| - 1;
      var prefix := ms[..n];
      SquaredErrorZero(a, prefix);
      var d := ms[n].1 - Evaluate(a, ms[n].0);
      assert SquaredError(a, ms) == SquaredError(a, prefix) + Square(d);
      assert forall i :: 0 <= i < n ==> prefix[i] == ms[i];
    }
  }

  /** The mean squared error is zero exactly when the fit passes through every sample. */
  lemma MseZero(a: Approximation)
    requires WellFormed(a) && |a.measurements| > 0
    ensures Mse(a) >= 0.0
    ensures Mse(a) == 0.0 <==>
      forall i :: 0 <= i < |a.measurements| ==> a.measurements[i].1 == Evaluate(a, a.measurements[i].0)
  {
    SquaredErrorZero(a, a.measurements);
    var m := |a.measurements| as real;
    assert Mse(a) * m == SquaredError(a, a.measurements);
  }
}
