/** The Newton loops of `plot_graph` (task 1) and `compare_root_methods`
    (task 2), and the bisection loop of `compare_root_methods`. */
module RootFinding {
  import opened Wrappers
  import opened Polynomials

  /** f(x) = x^4 - 10x^2 + 9 of task 1. */
  const Quartic: Poly := [9.0, 0.0, -10.0, 0.0, 1.0]
  /** Its derivative as `plot_graph` writes it, 4x^3 - 20x. */
  const QuarticSlope: Poly := [0.0, -20.0, 0.0, 4.0]
  /** f(x) = x^3 - 6x^2 + 11x - 6 of task 2. */
  const Cubic: Poly := [-6.0, 11.0, -6.0, 1.0]
  /** Its derivative as `compare_root_methods` writes it, 3x^2 - 12x + 11. */
  const CubicSlope: Poly := [11.0, -12.0, 3.0]

  /** Python's message for a float division by zero. */
  const ZeroDivision: string := "float division by zero"
  /** Python's message when the loop never ran and `mid` was never bound. */
  const MidUnbound: string := "cannot access local variable 'mid' where it is not associated with a value"

  /** The coefficient sequences are the formulas of `plot_graph` and
      `compare_root_methods` in computations.py. */
  lemma PolynomialsAsWritten(x: real)
    ensures Eval(Quartic, x) == x * x * x * x - 10.0 * x * x + 9.0
    ensures Eval(QuarticSlope, x) == 4.0 * x * x * x - 20.0 * x
    ensures Eval(Cubic, x) == x * x * x - 6.0 * x * x + 11.0 * x - 6.0
    ensures Eval(CubicSlope, x) == 3.0 * x * x - 12.0 * x + 11.0
  {
    assert Quartic[1..][1..][1..][1..][1..] == [];
    assert QuarticSlope[1..][1..][1..][1..] == [];
    assert Cubic[1..][1..][1..][1..] == [];
    assert CubicSlope[1..][1..][1..] == [];
  }

  /** The hand-written derivatives are the derivatives of the functions. */
  lemma SlopesAreDerivatives()
    ensures Derivative(Quartic) == QuarticSlope
    ensures Derivative(Cubic) == CubicSlope
  {
  }

  // ---------------------------------------------------------------- Newton

  /** The outcome of a Newton loop: the final estimate, how many updates it
      made, and whether it stopped on the tolerance test. */
  datatype NewtonOut = NewtonOut(root: real, iterations: nat, converged: bool)

  /** The Newton loop from estimate `x` after `k` updates: stop when
      |f(x)| < tol, or when `maxIter` updates have been made; otherwise
      x := x - f(x)/f'(x), which raises when f'(x) is zero. */
  function NewtonFrom(f: Poly, df: Poly, tol: real, maxIter: int, x: real, k: nat): Result<NewtonOut>
    decreases maxIter - k
  {
    if k >= maxIter then Success(NewtonOut(x, k, false))
    else if Abs(Eval(f, x)) < tol then Success(NewtonOut(x, k, true))
    else if Eval(df, x) == 0.0 then Failure(ZeroDivision)
    else NewtonFrom(f, df, tol, maxIter, x - Eval(f, x) / Eval(df, x), k + 1)
  }

  /** What every Newton run promises: it stops within the bound, it reports
      convergence only with |f(root)| < tol, and otherwise it used every pass. */
  lemma {:induction false} NewtonFromBounds(f: Poly, df: Poly, tol: real, maxIter: int, x: real, k: nat)
    requires k <= Passes(maxIter)
    ensures var r := NewtonFrom(f, df, tol, maxIter, x, k);
      (r.Failure? ==> r.error == ZeroDivision) &&
      (r.Success? ==> k <= r.value.iterations <= Passes(maxIter)
                      && (r.value.converged ==> Abs(Eval(f, r.value.root)) < tol && r.value.iterations < maxIter)
                      && (!r.value.converged ==> r.value.iterations == Passes(maxIter)))
    decreases maxIter - k
  {
    if k < maxIter && Abs(Eval(f, x)) >= tol && Eval(df, x) != 0.0 {
      NewtonFromBounds(f, df, tol, maxIter, x - Eval(f, x) / Eval(df, x), k + 1);
    }
  }

  /** The Newton loop, starting at `x0`. */
  method Newton(f: Poly, df: Poly, tol: real, maxIter: int, x0: real) returns (r: Result<NewtonOut>)
    ensures r == NewtonFrom(f, df, tol, maxIter, x0, 0)
    ensures r.Failure? ==> r.error == ZeroDivision
    ensures r.Success? ==> r.value.iterations <= Passes(maxIter)
    ensures r.Success? && r.value.converged ==> Abs(Eval(f, r.value.root)) < tol && r.value.iterations < maxIter
    ensures r.Success? && !r.value.converged ==> r.value.iterations == Passes(maxIter)
  {
    var x := x0;
    var k: nat := 0;
    NewtonFromBounds(f, df, tol, maxIter, x0, 0);
    while k < maxIter
      invariant k <= Passes(maxIter)
      invariant NewtonFrom(f, df, tol, maxIter, x, k) == NewtonFrom(f, df, tol, maxIter, x0, 0)
      decreases maxIter - k
    {
      var fx := Eval(f, x);
      if Abs(fx) < tol {
        return Success(NewtonOut(x, k, true));
      }
      var slope := Eval(df, x);
      if slope == 0.0 {
        return Failure(ZeroDivision);
      }
      x := x - fx / slope;
      k := k + 1;
    }
    r := Success(NewtonOut(x, k, false));
  }

  /** Task 2's Newton run starts on the root 2 of the cubic and never moves:
      f(2) = 0 and f'(2) = -1, so each update leaves x = 2. */
  lemma {:induction false} NewtonStaysOnRoot(tol: real, maxIter: int, k: nat)
    requires k <= Passes(maxIter)
    ensures NewtonFrom(Cubic, CubicSlope, tol, maxIter, 2.0, k).Success?
    ensures NewtonFrom(Cubic, CubicSlope, tol, maxIter, 2.0, k).value.root == 2.0
    decreases maxIter - k
  {
    PolynomialsAsWritten(2.0);
    if k < maxIter && Abs(Eval(Cubic, 2.0)) >= tol {
      assert 2.0 - Eval(Cubic, 2.0) / Eval(CubicSlope, 2.0) == 2.0;
      NewtonStaysOnRoot(tol, maxIter, k + 1);
    }
  }

  // ------------------------------------------------------------- Bisection

  /** 1/2^n. */
  function Half(n: nat): (r: real)
    ensures 0.0 < r <= 1.0
  {
    if n == 0 then 1.0 else Half(n - 1) / 2.0
  }

  /** The outcome of the bisection loop: the reported root, the number of
      counted iterations, the final bracket, and whether it stopped on the
      tolerance test (rather than running out of passes). */
  datatype BisectionOut = BisectionOut(root: real, iterations: nat, a: real, b: real, converged: bool)

  /** The bisection loop on `f` with bracket [a, b] after `k` counted
      iterations; `last` is the midpoint of the previous pass (unbound
      before the first). A pass stops when |f(mid)| < tol or
      (b - a)/2 < tol; otherwise it counts an iteration and replaces b by
      mid when f(a)*f(mid) < 0, and a by mid otherwise. When the passes run
      out, the `while ... else` branch reports the last midpoint. */
  function BisectFrom(f: Poly, tol: real, maxIter: int, a: real, b: real, k: nat, last: Option<real>): Result<BisectionOut>
    decreases maxIter - k
  {
    if k >= maxIter then
      match last
      case None => Failure(MidUnbound)
      case Some(m) => Success(BisectionOut(m, k, a, b, false))
    else
      var mid := (a + b) / 2.0;
      if Abs(Eval(f, mid)) < tol || (b - a) / 2.0 < tol then Success(BisectionOut(mid, k, a, b, true))
      else if Eval(f, a) * Eval(f, mid) < 0.0 then BisectFrom(f, tol, maxIter, a, mid, k + 1, Some(mid))
      else BisectFrom(f, tol, maxIter, mid, b, k + 1, Some(mid))
  }

  /** The bisection run of task 2: the cubic on the fixed bracket [0, 3]. */
  function Bisection(tol: real, maxIter: int): Result<BisectionOut>
  {
    BisectFrom(Cubic, tol, maxIter, 0.0, 3.0, 0, None)
  }

  /** The bracket invariant of a pass: inside [0, 3], of width 3/2^k, and
      the previous midpoint is the endpoint that the last pass replaced. */
  predicate BracketAfter(a: real, b: real, k: nat, last: Option<real>)
  {
    0.0 <= a <= b <= 3.0 && b - a == 3.0 * Half(k)
    && (k == 0 <==> last.None?)
    && (last.Some? ==> last.value == a || last.value == b)
  }

  /** Either half of a bracket of width 3/2^k has width 3/2^(k+1). */
  lemma HalveBracket(a: real, b: real, k: nat)
    requires b - a == 3.0 * Half(k)
    ensures (a + b) / 2.0 - a == b - (a + b) / 2.0 == 3.0 * Half(k + 1)
  {
  }

  /** What the bisection loop on `f` promises once it has run a pass. */
  predicate BisectionReport(f: Poly, r: BisectionOut, tol: real, maxIter: int)
  {
    0.0 <= r.a <= r.b <= 3.0 && r.b - r.a == 3.0 * Half(r.iterations)
    && r.iterations <= maxIter
    && (r.converged ==> r.root == (r.a + r.b) / 2.0
                        && (Abs(Eval(f, r.root)) < tol || (r.b - r.a) / 2.0 < tol))
    && (!r.converged ==> r.iterations == maxIter && (r.root == r.a || r.root == r.b))
  }

  /** The outcome of the loop from bracket [a, b] after k iterations:
      it fails exactly when there was no pass, and otherwise it reports a
      bracket inside [a, b] after at least k iterations. */
  predicate BisectOutcome(f: Poly, tol: real, maxIter: int, a: real, b: real, k: nat, r: Result<BisectionOut>)
  {
    (r.Failure? <==> maxIter < 1)
    && (r.Failure? ==> r.error == MidUnbound)
    && (r.Success? ==> BisectionReport(f, r.value, tol, maxIter) && r.value.iterations >= k
                       && a <= r.value.a <= r.value.root <= r.value.b <= b)
  }

  /** Each counted iteration halves the bracket and keeps it inside the one
      it started from; the reported root is the midpoint of the final
      bracket on convergence, and the endpoint set last when the passes run
      out. */
  lemma {:induction false} BisectFromReport(f: Poly, tol: real, maxIter: int, a: real, b: real, k: nat, last: Option<real>)
    requires BracketAfter(a, b, k, last) && k <= Passes(maxIter)
    ensures BisectOutcome(f, tol, maxIter, a, b, k, BisectFrom(f, tol, maxIter, a, b, k, last))
    decreases maxIter - k
  {
    var mid := (a + b) / 2.0;
    if k >= maxIter {
      FinalReport(f, tol, maxIter, a, b, k, last);
    } else if Abs(Eval(f, mid)) < tol || (b - a) / 2.0 < tol {
      StopReport(f, tol, maxIter, a, b, k, last);
    } else {
      HalveBracket(a, b, k);
      var r := BisectFrom(f, tol, maxIter, a, b, k, last);
      if Eval(f, a) * Eval(f, mid) < 0.0 {
        assert r == BisectFrom(f, tol, maxIter, a, mid, k + 1, Some(mid));
        BisectFromReport(f, tol, maxIter, a, mid, k + 1, Some(mid));
        Widen(f, tol, maxIter, a, b, a, mid, k, r);
      } else {
        assert r == BisectFrom(f, tol, maxIter, mid, b, k + 1, Some(mid));
        BisectFromReport(f, tol, maxIter, mid, b, k + 1, Some(mid));
        Widen(f, tol, maxIter, a, b, mid, b, k, r);
      }
    }
  }

  /** The passes have run out: the last midpoint is reported. */
  lemma FinalReport(f: Poly, tol: real, maxIter: int, a: real, b: real, k: nat, last: Option<real>)
    requires BracketAfter(a, b, k, last) && k == Passes(maxIter)
    ensures BisectOutcome(f, tol, maxIter, a, b, k, BisectFrom(f, tol, maxIter, a, b, k, last))
  {
  }

  /** The stopping test holds: the midpoint is reported. */
  lemma StopReport(f: Poly, tol: real, maxIter: int, a: real, b: real, k: nat, last: Option<real>)
    requires BracketAfter(a, b, k, last) && k < maxIter
    requires Abs(Eval(f, (a + b) / 2.0)) < tol || (b - a) / 2.0 < tol
    ensures BisectOutcome(f, tol, maxIter, a, b, k, BisectFrom(f, tol, maxIter, a, b, k, last))
  {
  }

  /** An outcome inside a sub-bracket after one more iteration is an
      outcome of the bracket. */
  lemma Widen(f: Poly, tol: real, maxIter: int, a: real, b: real, a2: real, b2: real, k: nat, r: Result<BisectionOut>)
    requires a <= a2 <= b2 <= b && BisectOutcome(f, tol, maxIter, a2, b2, k + 1, r)
    ensures BisectOutcome(f, tol, maxIter, a, b, k, r)
  {
  }

  /** The bisection loop of `compare_root_methods`. */
  method BisectionLoop(tol: real, maxIter: int) returns (r: Result<BisectionOut>)
    ensures r == Bisection(tol, maxIter)
    ensures r.Failure? <==> maxIter < 1
    ensures r.Failure? ==> r.error == MidUnbound
    ensures r.Success? ==> BisectionReport(Cubic, r.value, tol, maxIter)
  {
    var a, b := 0.0, 3.0;
    var k: nat := 0;
    var mid: Option<real> := None;
    BisectFromReport(Cubic, tol, maxIter, a, b, k, mid);
    while k < maxIter
      invariant BracketAfter(a, b, k, mid) && k <= Passes(maxIter)
      invariant BisectFrom(Cubic, tol, maxIter, a, b, k, mid) == Bisection(tol, maxIter)
      decreases maxIter - k
    {
      var m := (a + b) / 2.0;
      var fm := Eval(Cubic, m);
      if Abs(fm) < tol || (b - a) / 2.0 < tol {
        return Success(BisectionOut(m, k, a, b, true));
      }
      HalveBracket(a, b, k);
      k := k + 1;
      if Eval(Cubic, a) * fm < 0.0 {
        b := m;
      } else {
        a := m;
      }
      mid := Some(m);
    }
    match mid
    case None =>
      r := Failure(MidUnbound);
    case Some(m) =>
      r := Success(BisectionOut(m, k, a, b, false));
  }

  /** The first counted iteration keeps [0, 1.5] (f(0) = -6 and
      f(1.5) = 0.375 differ in sign), so unless the tolerance is so loose
      that it stops at 1.5 straight away, bisection never reaches the root 2
      that the kernel reports errors against: its root stays at most 1.5. */
  lemma BisectionStaysBelowTwo(tol: real, maxIter: int)
    requires maxIter >= 1 && tol <= 0.375
    ensures Bisection(tol, maxIter).Success?
    ensures Bisection(tol, maxIter).value.root <= 1.5
  {
    PolynomialsAsWritten(0.0);
    PolynomialsAsWritten(1.5);
    assert Eval(Cubic, 0.0) * Eval(Cubic, 1.5) < 0.0;
    assert Bisection(tol, maxIter) == BisectFrom(Cubic, tol, maxIter, 0.0, 1.5, 1, Some(1.5));
    BisectFromReport(Cubic, tol, maxIter, 0.0, 1.5, 1, Some(1.5));
  }
}
