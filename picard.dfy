/** Task 7, `picard_method`: Picard's successive approximations for
    dy/dx = x + y, y(0) = 1, computed exactly on coefficient sequences. */
module Picard {
  import opened Polynomials

  /** The polynomial x. */
  const Identity: Poly := [0.0, 1.0]

  /** The initial approximation y0 = 1. */
  const Start: Poly := [1.0]

  /** The point at which the fourth approximation is evaluated. */
  const EvalPoint: real := 0.2

  /** y_{k+1}(x) = 1 + integral from 0 to x of (t + y_k(t)) dt: add the
      identity polynomial, integrate term by term, add 1. */
  function PicardStep(y: Poly): (r: Poly)
    ensures Eval(r, 0.0) == 1.0
    ensures Derivative(r) == Add(Identity, y)
  {
    var integrand := Add(Identity, y);
    var r := Add(Start, Integrate(integrand));
    EvalAdd(Start, Integrate(integrand), 0.0);
    IntegralAtZero(integrand);
    DerivativeIgnoresConstant(1.0, Integrate(integrand));
    DerivativeOfIntegral(integrand);
    r
  }

  /** The five approximations y0 .. y4 that the kernel returns. */
  function Approximations(): (ys: seq<Poly>)
    ensures |ys| == 5 && ys[0] == Start
    ensures forall k :: 0 <= k < 4 ==> ys[k + 1] == PicardStep(ys[k])
  {
    var y1 := PicardStep(Start);
    var y2 := PicardStep(y1);
    var y3 := PicardStep(y2);
    var y4 := PicardStep(y3);
    [Start, y1, y2, y3, y4]
  }

  /** Every approximation satisfies the initial condition y_k(0) = 1. */
  lemma InitialCondition(k: nat)
    requires k < 5
    ensures Eval(Approximations()[k], 0.0) == 1.0
  {
    var ys := Approximations();
    if k > 0 {
      assert ys[k] == PicardStep(ys[k - 1]);
    }
  }

  /** One Picard step on a concrete coefficient sequence: the integrand
      x + y has coefficients y[0], y[1] + 1, y[2], ... */
  lemma StepCoefficients(y: Poly, r: Poly)
    requires |y| >= 2
    requires |r| == |y| + 1 && r[0] == 1.0 && r[1] == y[0] && r[2] == (y[1] + 1.0) / 2.0
    requires forall i :: 3 <= i < |r| ==> r[i] == y[i - 1] / i as real
    ensures PicardStep(y) == r
  {
    var integrand := Add(Identity, y);
    var ig := Integrate(integrand);
    var s := Add(Start, ig);
    assert |s| == |r|;
    forall i | 0 <= i < |r| ensures s[i] == r[i] {
      assert s[i] == Coeff(Start, i) + Coeff(ig, i);
      if i >= 1 {
        assert ig[i] == integrand[i - 1] / i as real;
        assert integrand[i - 1] == Coeff(Identity, i - 1) + Coeff(y, i - 1);
      }
    }
  }

  /** y1 = 1 + x + x^2/2. */
  lemma FirstStep()
    ensures PicardStep(Start) == [1.0, 1.0, 0.5]
  {
    var integrand := Add(Identity, Start);
    assert integrand == [1.0, 1.0] by {
      assert |integrand| == 2 && integrand[0] == Coeff(Identity, 0) + Coeff(Start, 0);
    }
    var ig := Integrate(integrand);
    assert ig == [0.0, 1.0, 0.5];
    var s := Add(Start, ig);
    assert |s| == 3;
    assert s[0] == Coeff(Start, 0) + Coeff(ig, 0);
    assert s[1] == Coeff(Start, 1) + Coeff(ig, 1);
    assert s[2] == Coeff(Start, 2) + Coeff(ig, 2);
  }

  /** The approximations are the documented polynomials:
      y1 = 1 + x + x^2/2, y2 = 1 + x + x^2 + x^3/6,
      y3 = 1 + x + x^2 + x^3/3 + x^4/24,
      y4 = 1 + x + x^2 + x^3/3 + x^4/12 + x^5/120. */
  lemma ApproximationsAreDocumented()
    ensures Approximations() == [
      [1.0],
      [1.0, 1.0, 0.5],
      [1.0, 1.0, 1.0, 1.0 / 6.0],
      [1.0, 1.0, 1.0, 1.0 / 3.0, 1.0 / 24.0],
      [1.0, 1.0, 1.0, 1.0 / 3.0, 1.0 / 12.0, 1.0 / 120.0]]
  {
    var ys := Approximations();
    var y1: Poly := [1.0, 1.0, 0.5];
    var y2: Poly := [1.0, 1.0, 1.0, 1.0 / 6.0];
    var y3: Poly := [1.0, 1.0, 1.0, 1.0 / 3.0, 1.0 / 24.0];
    var y4: Poly := [1.0, 1.0, 1.0, 1.0 / 3.0, 1.0 / 12.0, 1.0 / 120.0];
    FirstStep();
    assert ys[1] == y1;
    StepCoefficients(y1, y2);
    assert ys[2] == y2;
    StepCoefficients(y2, y3);
    assert ys[3] == y3;
    StepCoefficients(y3, y4);
    assert ys[4] == y4;
    assert ys == [Start, y1, y2, y3, y4];
  }

  /** The value `y(0.2)` the kernel reports: y4(0.2) = 466051/375000. */
  lemma ValueAtEvalPoint()
    ensures Eval(Approximations()[4], EvalPoint) == 466051.0 / 375000.0
  {
    ApproximationsAreDocumented();
    var y4: Poly := [1.0, 1.0, 1.0, 1.0 / 3.0, 1.0 / 12.0, 1.0 / 120.0];
    var x := EvalPoint;
    assert Eval(y4[5..], x) == 1.0 / 120.0 by {
      assert y4[5..][1..] == [];
    }
    assert y4[4..][1..] == y4[5..];
    assert y4[3..][1..] == y4[4..];
    assert y4[2..][1..] == y4[3..];
    assert y4[1..][1..] == y4[2..];
    assert Eval(y4[4..], x) == 1.0 / 12.0 + x / 120.0;
    assert Eval(y4[3..], x) == 1.0 / 3.0 + x * (1.0 / 12.0 + x / 120.0);
    assert Eval(y4[2..], x) == 1.0 + x * (1.0 / 3.0 + x * (1.0 / 12.0 + x / 120.0));
    assert Eval(y4[1..], x) == 1.0 + x * (1.0 + x * (1.0 / 3.0 + x * (1.0 / 12.0 + x / 120.0)));
  }
}
