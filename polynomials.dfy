/** Exact polynomials over the reals: the algebra behind the symbolic Picard
    iteration and the fixed polynomials whose roots the Newton and bisection
    kernels hunt. */
module Polynomials {

  /** Coefficients, lowest degree first: `p[i]` multiplies x^i. */
  type Poly = seq<real>

  /** The coefficient of x^i (zero beyond the stored ones). */
  function Coeff(p: Poly, i: nat): real
  {
    if i < |p| then p[i] else 0.0
  }

  /** The value of `p` at `x`, by Horner's rule. */
  function Eval(p: Poly, x: real): real
    decreases |p|
  {
    if |p| == 0 then 0.0 else p[0] + x * Eval(p[1..], x)
  }

  /** The sum of two polynomials, coefficient by coefficient. */
  function Add(p: Poly, q: Poly): (r: Poly)
    ensures |r| == if |p| < |q| then |q| else |p|
  {
    seq(if |p| < |q| then |q| else |p|, i requires i >= 0 => Coeff(p, i) + Coeff(q, i))
  }

  /** The antiderivative that vanishes at 0, integrated term by term. */
  function Integrate(p: Poly): (r: Poly)
    ensures |r| == |p| + 1
  {
    [0.0] + seq(|p|, i requires 0 <= i < |p| => p[i] / (i + 1) as real)
  }

  /** The derivative, term by term. */
  function Derivative(p: Poly): (r: Poly)
    ensures |p| > 0 ==> |r| == |p| - 1
  {
    if |p| == 0 then [] else seq(|p| - 1, i requires 0 <= i < |p| - 1 => (i + 1) as real * p[i + 1])
  }

  /** Evaluation turns the sum of polynomials into the sum of values. */
  lemma {:induction false} EvalAdd(p: Poly, q: Poly, x: real)
    ensures Eval(Add(p, q), x) == Eval(p, x) + Eval(q, x)
    decreases |p| + |q|
  {
    var s := Add(p, q);
    if |p| == 0 {
      assert s == q;
    } else if |q| == 0 {
      assert s == p;
    } else {
      EvalAdd(p[1..], q[1..], x);
      AddSplits(p, q);
      HornerDistributes(p[0], q[0], x, Eval(p[1..], x), Eval(q[1..], x));
    }
  }

  /** The sum of two non-empty polynomials: the constant terms add, and the
      rest is the sum of the rests. */
  lemma AddSplits(p: Poly, q: Poly)
    requires |p| > 0 && |q| > 0
    ensures Add(p, q)[0] == p[0] + q[0] && Add(p, q)[1..] == Add(p[1..], q[1..])
  {
  }

  lemma HornerDistributes(a: real, b: real, x: real, u: real, v: real)
    ensures a + b + x * (u + v) == (a + x * u) + (b + x * v)
  {
  }

  /** The integral is an antiderivative: differentiating gives back `p`. */
  lemma DerivativeOfIntegral(p: Poly)
    ensures Derivative(Integrate(p)) == p
  {
    var r := Integrate(p);
    var d := Derivative(r);
    forall i | 0 <= i < |p| ensures d[i] == p[i] {
      var n := (i + 1) as real;
      assert r[i + 1] == p[i] / n;
      assert n * (p[i] / n) == p[i];
    }
  }

  /** The integral vanishes at the lower bound 0. */
  lemma IntegralAtZero(p: Poly)
    ensures Eval(Integrate(p), 0.0) == 0.0
  {
  }

  /** Adding a constant does not change the derivative. */
  lemma DerivativeIgnoresConstant(c: real, p: Poly)
    requires |p| > 0
    ensures Derivative(Add([c], p)) == Derivative(p)
  {
    AddConstantKeepsTail(c, p);
    DerivativeOfTail(Add([c], p), p);
  }

  /** Adding a constant changes the constant coefficient only. */
  lemma AddConstantKeepsTail(c: real, p: Poly)
    requires |p| > 0
    ensures |Add([c], p)| == |p| && Add([c], p)[1..] == p[1..]
  {
    var s := Add([c], p);
    forall i | 1 <= i < |p| ensures s[i] == p[i] {
      assert s[i] == Coeff([c], i) + Coeff(p, i);
    }
    assert s[1..] == p[1..];
  }

  /** The derivative depends on the coefficients of degree one and up only. */
  lemma DerivativeOfTail(s: Poly, p: Poly)
    requires |s| == |p| > 0 && s[1..] == p[1..]
    ensures Derivative(s) == Derivative(p)
  {
    var ds, dp := Derivative(s), Derivative(p);
    forall i | 0 <= i < |p| - 1 ensures ds[i] == dp[i] {
      assert s[i + 1] == s[1..][i] == p[1..][i] == p[i + 1];
    }
  }
}
