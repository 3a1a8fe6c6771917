/** Task 4, `power_method_eigen`: power iteration for the dominant
    eigenvalue of a 3x3 matrix, normalising by the largest absolute
    component. */
module PowerIteration {
  import opened Wrappers

  type Vector = seq<real>
  type Matrix = seq<seq<real>>

  /** A x = 0 makes the normalisation divide by a zero maximum. */
  const ZeroMaximum: string := "division by a zero maximum"

  /** Python's message when the result mapping reads `lambda_approx`, its
      first entry, after a loop over an empty range. */
  const LambdaUnbound: string := "cannot access local variable 'lambda_approx' where it is not associated with a value"

  predicate IsSquare(A: Matrix)
  {
    |A| == 3 && forall i :: 0 <= i < 3 ==> |A[i]| == 3
  }

  /** The matrix used when the caller does not give all nine entries. */
  const DefaultMatrix: Matrix := [[6.0, 2.0, 3.0], [2.0, 6.0, 4.0], [3.0, 4.0, 6.0]]

  /** The parameter names of the entries, row by row. */
  const MatrixKeys: seq<string> := ["a11", "a12", "a13", "a21", "a22", "a23", "a31", "a32", "a33"]

  /** The parameter name of entry (i, j), counted from 0. */
  function Key(i: nat, j: nat): string
    requires i < 3 && j < 3
  {
    MatrixKeys[3 * i + j]
  }

  predicate HasAllEntries(numbers: map<string, real>)
  {
    forall k :: k in MatrixKeys ==> k in numbers
  }

  /** The caller's matrix when all nine entries are present, the default
      matrix otherwise. */
  function SelectMatrix(numbers: map<string, real>): (A: Matrix)
    ensures IsSquare(A)
    ensures HasAllEntries(numbers) ==>
      forall i, j :: 0 <= i < 3 && 0 <= j < 3 ==> Key(i, j) in numbers && A[i][j] == numbers[Key(i, j)]
    ensures !HasAllEntries(numbers) ==> A == DefaultMatrix
  {
    if HasAllEntries(numbers) then
      assert forall i, j :: 0 <= i < 3 && 0 <= j < 3 ==> Key(i, j) in MatrixKeys;
      seq(3, i requires 0 <= i < 3 => seq(3, j requires 0 <= j < 3 => numbers[Key(i, j)]))
    else DefaultMatrix
  }

  function Dot(u: Vector, v: Vector): real
    requires |u| == |v|
  {
    if |u| == 0 then 0.0 else u[0] * v[0] + Dot(u[1..], v[1..])
  }

  /** `np.dot(A, x)`. */
  function MatVec(A: Matrix, v: Vector): (y: Vector)
    requires IsSquare(A) && |v| == 3
    ensures |y| == 3
  {
    seq(3, i requires 0 <= i < 3 => Dot(A[i], v))
  }

  /** `np.max(np.abs(v))`: the largest absolute component. */
  function MaxAbs(v: Vector): (m: real)
    ensures m >= 0.0
    ensures forall i :: 0 <= i < |v| ==> Abs(v[i]) <= m
    ensures |v| > 0 ==> exists i :: 0 <= i < |v| && Abs(v[i]) == m
  {
    if |v| == 0 then 0.0
    else
      var rest := MaxAbs(v[1..]);
      assert forall i :: 1 <= i < |v| ==> v[i] == v[1..][i - 1];
      if Abs(v[0]) >= rest then Abs(v[0]) else rest
  }

  /** `v / c`, component by component. */
  function Divide(v: Vector, c: real): (w: Vector)
    requires c != 0.0
    ensures |w| == |v|
  {
    seq(|v|, i requires 0 <= i < |v| => v[i] / c)
  }

  /** Every component has magnitude at most 1 and some component has
      magnitude exactly 1. */
  predicate Normalised(v: Vector)
  {
    (forall i :: 0 <= i < |v| ==> Abs(v[i]) <= 1.0)
    && exists i :: 0 <= i < |v| && Abs(v[i]) == 1.0
  }

  /** Dividing by the largest magnitude normalises. */
  lemma DivideByMaxAbsNormalises(v: Vector)
    requires MaxAbs(v) != 0.0
    ensures Normalised(Divide(v, MaxAbs(v)))
  {
    var m := MaxAbs(v);
    var w := Divide(v, m);
    forall i | 0 <= i < |v| ensures Abs(w[i]) <= 1.0 {
      QuotientBound(v[i], m);
    }
    var j :| 0 <= j < |v| && Abs(v[j]) == m;
    QuotientBound(v[j], m);
    assert Abs(w[j]) == 1.0;
  }

  lemma PositiveProduct(a: real, b: real)
    requires a > 0.0 && b > 0.0
    ensures a * b > 0.0
  {
  }

  /** A multiple q*m of a positive m that lies in [-m, m] has |q| <= 1,
      with q = 1 or q = -1 at the ends. */
  lemma UnitMultiplier(q: real, m: real)
    requires m > 0.0 && -m <= q * m <= m
    ensures -1.0 <= q <= 1.0
    ensures q * m == m ==> q == 1.0
    ensures q * m == -m ==> q == -1.0
  {
    if q > 1.0 { PositiveProduct(q - 1.0, m); }
    if q < -1.0 { PositiveProduct(-1.0 - q, m); }
    if q < 1.0 { PositiveProduct(1.0 - q, m); }
    if q > -1.0 { PositiveProduct(q + 1.0, m); }
  }

  /** |x / m| <= 1 when |x| <= m, with equality when |x| = m. */
  lemma QuotientBound(x: real, m: real)
    requires m > 0.0 && Abs(x) <= m
    ensures Abs(x / m) <= 1.0
    ensures Abs(x) == m ==> Abs(x / m) == 1.0
  {
    var q := x / m;
    assert q * m == x;
    UnitMultiplier(q, m);
  }

  function Minus(u: Vector, v: Vector): (d: Vector)
    requires |u| == |v|
    ensures |d| == |u|
  {
    seq(|u|, i requires 0 <= i < |u| => u[i] - v[i])
  }

  function SumSq(v: Vector): (s: real)
    ensures s >= 0.0
  {
    if |v| == 0 then 0.0 else v[0] * v[0] + SumSq(v[1..])
  }

  /** `np.linalg.norm(d) < tol`, written without the square root. */
  predicate NormBelow(d: Vector, tol: real)
  {
    tol > 0.0 && SumSq(d) < tol * tol
  }

  /** For the Euclidean norm n of d (n >= 0, n*n the sum of squares),
      n < tol exactly when the square-root-free test holds. */
  lemma NormBelowIsNormTest(d: Vector, tol: real, n: real)
    requires n >= 0.0 && n * n == SumSq(d)
    ensures n < tol <==> NormBelow(d, tol)
  {
    if n < tol {
      PositiveProduct(tol - n, tol + n);
    } else if tol > 0.0 && n > tol {
      PositiveProduct(n - tol, n + tol);
    }
  }

  /** A pass's output: the estimate, the iteration count `i + 1`, the
      normalised vector, and the vector it was computed from. */
  datatype PowerOut = PowerOut(lambda: real, iterations: nat, vector: Vector, previous: Vector)

  /** Pass `i` of the loop on vector x: y = A x, lambda = max |y_k|,
      x' = y / lambda; stop when |x' - x| < tol or the passes run out. */
  function PowerFrom(A: Matrix, tol: real, maxIter: int, x: Vector, i: nat): Result<PowerOut>
    requires IsSquare(A) && |x| == 3 && i < maxIter
    decreases maxIter - i
  {
    var y := MatVec(A, x);
    var lambda := MaxAbs(y);
    if lambda == 0.0 then Failure(ZeroMaximum)
    else
      var next := Divide(y, lambda);
      if NormBelow(Minus(next, x), tol) || i + 1 >= maxIter then Success(PowerOut(lambda, i + 1, next, x))
      else PowerFrom(A, tol, maxIter, next, i + 1)
  }

  const Ones: Vector := [1.0, 1.0, 1.0]

  /** The power method from the all-ones vector. */
  function PowerRun(A: Matrix, tol: real, maxIter: int): Result<PowerOut>
    requires IsSquare(A)
  {
    if maxIter < 1 then Failure(LambdaUnbound) else PowerFrom(A, tol, maxIter, Ones, 0)
  }

  /** v is an eigenvector of A with eigenvalue lambda. */
  predicate IsEigenpair(A: Matrix, lambda: real, v: Vector)
    requires IsSquare(A) && |v| == 3
  {
    v != [0.0, 0.0, 0.0] && forall k :: 0 <= k < 3 ==> MatVec(A, v)[k] == lambda * v[k]
  }

  /** What the power method promises of what it reports. */
  predicate PowerReport(A: Matrix, r: PowerOut, tol: real, maxIter: int)
    requires IsSquare(A)
  {
    1 <= r.iterations <= maxIter && r.lambda > 0.0
    && |r.vector| == 3 && |r.previous| == 3
    && Normalised(r.vector)
    && (forall k :: 0 <= k < 3 ==> MatVec(A, r.previous)[k] == r.lambda * r.vector[k])
    && (r.iterations < maxIter ==> NormBelow(Minus(r.vector, r.previous), tol))
  }

  lemma {:induction false} PowerFromReport(A: Matrix, tol: real, maxIter: int, x: Vector, i: nat)
    requires IsSquare(A) && |x| == 3 && i < maxIter
    ensures var r := PowerFrom(A, tol, maxIter, x, i);
      (r.Failure? ==> r.error == ZeroMaximum)
      && (r.Success? ==> PowerReport(A, r.value, tol, maxIter) && r.value.iterations > i)
    decreases maxIter - i
  {
    var y := MatVec(A, x);
    var lambda := MaxAbs(y);
    if lambda != 0.0 {
      var next := Divide(y, lambda);
      if NormBelow(Minus(next, x), tol) || i + 1 >= maxIter {
        PassReport(A, tol, maxIter, x, i, PowerOut(lambda, i + 1, next, x));
      } else {
        assert PowerFrom(A, tol, maxIter, x, i) == PowerFrom(A, tol, maxIter, next, i + 1);
        PowerFromReport(A, tol, maxIter, next, i + 1);
      }
    }
  }

  /** A pass that stops reports a normalised vector with A x = lambda x'. */
  lemma PassReport(A: Matrix, tol: real, maxIter: int, x: Vector, i: nat, r: PowerOut)
    requires IsSquare(A) && |x| == 3 && i < maxIter
    requires r.lambda == MaxAbs(MatVec(A, x)) != 0.0
    requires r.vector == Divide(MatVec(A, x), r.lambda) && r.previous == x && r.iterations == i + 1
    requires r.iterations < maxIter ==> NormBelow(Minus(r.vector, r.previous), tol)
    ensures PowerReport(A, r, tol, maxIter)
  {
    PassNormalises(A, x, r);
    PassScales(MatVec(A, x), r);
  }

  lemma PassNormalises(A: Matrix, x: Vector, r: PowerOut)
    requires IsSquare(A) && |x| == 3
    requires r.lambda == MaxAbs(MatVec(A, x)) != 0.0
    requires r.vector == Divide(MatVec(A, x), r.lambda)
    ensures Normalised(r.vector)
  {
    DivideByMaxAbsNormalises(MatVec(A, x));
  }

  /** The reported vector times lambda gives back y = A x. */
  lemma PassScales(y: Vector, r: PowerOut)
    requires r.lambda != 0.0 && r.vector == Divide(y, r.lambda)
    ensures forall k :: 0 <= k < |y| ==> y[k] == r.lambda * r.vector[k]
  {
    forall k | 0 <= k < |y| ensures y[k] == r.lambda * r.vector[k] {
      ScaleBack(y[k], r.lambda);
    }
  }

  lemma ScaleBack(a: real, c: real)
    requires c != 0.0
    ensures c * (a / c) == a
  {
  }

  lemma PowerRunReport(A: Matrix, tol: real, maxIter: int)
    requires IsSquare(A)
    ensures var r := PowerRun(A, tol, maxIter);
      (r.Failure? ==> (maxIter < 1 && r.error == LambdaUnbound) || (maxIter >= 1 && r.error == ZeroMaximum))
      && (r.Success? ==> PowerReport(A, r.value, tol, maxIter))
  {
    if maxIter >= 1 {
      PowerFromReport(A, tol, maxIter, Ones, 0);
    }
  }

  /** If a pass leaves the vector where it was, the vector is an eigenvector
      and lambda its eigenvalue. */
  lemma FixedPointIsEigenpair(A: Matrix, r: PowerOut, tol: real, maxIter: int)
    requires IsSquare(A) && PowerReport(A, r, tol, maxIter)
    requires r.vector == r.previous
    ensures IsEigenpair(A, r.lambda, r.vector)
  {
    var j :| 0 <= j < 3 && Abs(r.vector[j]) == 1.0;
    assert r.vector[j] != 0.0;
  }

  predicate Positive(v: Vector)
  {
    forall k :: 0 <= k < |v| ==> v[k] > 0.0
  }

  lemma {:induction false} DotPositive(u: Vector, v: Vector)
    requires |u| == |v| > 0 && Positive(u) && Positive(v)
    ensures Dot(u, v) > 0.0
    decreases |u|
  {
    assert u[0] * v[0] > 0.0;
    if |u| > 1 {
      DotPositive(u[1..], v[1..]);
    }
  }

  /** With the default matrix, whose entries are all positive, every vector
      stays positive, so the maximum is never zero and the method never
      fails once it runs. */
  lemma {:induction false} DefaultNeverDegenerates(tol: real, maxIter: int, x: Vector, i: nat)
    requires |x| == 3 && Positive(x) && i < maxIter
    ensures PowerFrom(DefaultMatrix, tol, maxIter, x, i).Success?
    decreases maxIter - i
  {
    var A := DefaultMatrix;
    var y := MatVec(A, x);
    forall k | 0 <= k < 3 ensures y[k] > 0.0 {
      assert Positive(A[k]);
      DotPositive(A[k], x);
    }
    var lambda := MaxAbs(y);
    assert Abs(y[0]) <= lambda;
    var next := Divide(y, lambda);
    if !(NormBelow(Minus(next, x), tol) || i + 1 >= maxIter) {
      forall k | 0 <= k < 3 ensures next[k] > 0.0 {
        assert next[k] == y[k] / lambda;
      }
      DefaultNeverDegenerates(tol, maxIter, next, i + 1);
    }
  }

  /** The loop of `power_method_eigen`. */
  method PowerMethod(A: Matrix, tol: real, maxIter: int) returns (r: Result<PowerOut>)
    requires IsSquare(A)
    ensures r == PowerRun(A, tol, maxIter)
    ensures r.Failure? ==> (maxIter < 1 && r.error == LambdaUnbound) || (maxIter >= 1 && r.error == ZeroMaximum)
    ensures r.Success? ==> PowerReport(A, r.value, tol, maxIter)
  {
    if maxIter < 1 {
      return Failure(LambdaUnbound);
    }
    var x := Ones;
    var i: nat := 0;
    while true
      invariant i < maxIter && |x| == 3
      invariant PowerFrom(A, tol, maxIter, x, i) == PowerRun(A, tol, maxIter)
      decreases maxIter - i
    {
      var y := MatVec(A, x);
      var lambda := MaxAbs(y);
      if lambda == 0.0 {
        r := Failure(ZeroMaximum);
        break;
      }
      var next := Divide(y, lambda);
      if NormBelow(Minus(next, x), tol) || i + 1 >= maxIter {
        r := Success(PowerOut(lambda, i + 1, next, x));
        break;
      }
      x := next;
      i := i + 1;
    }
    PowerRunReport(A, tol, maxIter);
  }
}
