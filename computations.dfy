/** The eight kernels of backend/computations.py as they assemble their
    result dictionaries, and the dispatcher `solve`. */
module Computations {
  import opened Wrappers
  import opened ResultFormat
  import opened Parameters
  import opened Polynomials
  import RootFinding
  import Relaxation
  import PowerIteration
  import Picard
  import Simpson

  /** What the kernels obtain from code outside the model: the rendered
      chart of each task (an opaque base64 string), Python's `float()` on
      one piece of a list parameter, `np.sin` and `math.pi`,
      the exponential fit (a, b) from `np.polyfit` and `np.exp`, the
      printed equation, and scipy's spline coefficients (which may raise). */
  datatype Env = Env(
    graph: int -> string,
    parse: string -> Option<real>,
    sine: real -> real,
    pi: real,
    expFit: (seq<real>, seq<real>) -> (real, real),
    equation: (real, real) -> string,
    spline: (seq<real>, seq<real>) -> Result<seq<seq<real>>>)

  /** A kernel either returns its result mapping or raises. */
  datatype Outcome = Returned(value: Value) | Raised(error: string)

  function ErrorResult(message: string): Value
  {
    VDict(map["error" := VStr(message)])
  }

  const InvalidTask: string := "Invalid task number"

  function Floats(xs: seq<real>): (v: Value)
    ensures v.VList? && |v.items| == |xs|
    ensures forall i :: 0 <= i < |xs| ==> v.items[i] == VFloat(xs[i])
  {
    VList(seq(|xs|, i requires 0 <= i < |xs| => VFloat(xs[i])))
  }

  // ----------------------------------------------------------------- task 1

  /** The root estimated from the graph. */
  const GraphEstimate: real := 3.1

  /** The result mapping of task 1 for Newton's outcome `n`. */
  function PlotReport(n: RootFinding.NewtonOut, graph: string): Value
  {
    VDict(map[
      "approximate_root_from_graph" := VFloat(GraphEstimate),
      "numerical_root" := VFloat(Round6(n.root)),
      "absolute_error" := VFloat(Round6(Abs(GraphEstimate - n.root))),
      GraphKey := VStr(graph)])
  }

  /** Task 1's Newton run on the quartic, from the graph estimate. */
  function QuarticRun(p: Params): Result<RootFinding.NewtonOut>
  {
    RootFinding.NewtonFrom(RootFinding.Quartic, RootFinding.QuarticSlope, Tol(p), MaxIterParam(p), GraphEstimate, 0)
  }

  /** `plot_graph`: Newton refinement of the estimate 3.1 on x^4 - 10x^2 + 9. */
  function PlotGraph(p: Params, env: Env): Outcome
  {
    match QuarticRun(p)
    case Failure(e) => Raised(e)
    case Success(n) => Returned(PlotReport(n, env.graph(1)))
  }

  /** Task 1 raises only on a zero slope, and its reported error is never
      negative. */
  lemma PlotGraphReport(p: Params, env: Env)
    ensures PlotGraph(p, env).Raised? ==> PlotGraph(p, env).error == RootFinding.ZeroDivision
    ensures PlotGraph(p, env).Returned? ==>
      PlotGraph(p, env).value == PlotReport(QuarticRun(p).value, env.graph(1))
      && PlotReport(QuarticRun(p).value, env.graph(1)).entries["absolute_error"].x >= 0.0
  {
    RootFinding.NewtonFromBounds(RootFinding.Quartic, RootFinding.QuarticSlope, Tol(p), MaxIterParam(p), GraphEstimate, 0);
    if QuarticRun(p).Success? {
      PlotErrorIsNonNegative(QuarticRun(p).value, env.graph(1));
    }
  }

  /** With no pass at all (`max_iter` < 1) task 1 reports the graph estimate
      itself with error 0. */
  lemma PlotGraphWithoutPasses(p: Params, env: Env)
    requires MaxIterParam(p) < 1
    ensures PlotGraph(p, env).Returned?
    ensures PlotGraph(p, env).value.entries["numerical_root"] == VFloat(GraphEstimate)
    ensures PlotGraph(p, env).value.entries["absolute_error"] == VFloat(0.0)
  {
    RootFinding.NewtonFromBounds(RootFinding.Quartic, RootFinding.QuarticSlope, Tol(p), MaxIterParam(p), GraphEstimate, 0);
    assert IsRounded(GraphEstimate) && IsRounded(0.0);
  }

  lemma PlotErrorIsNonNegative(n: RootFinding.NewtonOut, graph: string)
    ensures PlotReport(n, graph).entries["absolute_error"].x >= 0.0
  {
    assert IsRounded(0.0);
    RoundIsMonotoneBelow(0.0, Abs(GraphEstimate - n.root));
  }

  // ----------------------------------------------------------------- task 2

  const TrueRoot: real := 2.0

  function MethodReport(root: real, iterations: nat): Value
  {
    VDict(map[
      "root" := VFloat(Round6(root)),
      "iterations" := VInt(iterations),
      "relative_error" := VFloat(Round6(Abs(root - TrueRoot) / Abs(TrueRoot)))])
  }

  /** The result mapping of task 2 for the two runs. */
  function CompareReport(bis: RootFinding.BisectionOut, nr: RootFinding.NewtonOut): Value
  {
    VDict(map[
      "Bisection" := MethodReport(bis.root, bis.iterations),
      "Newton-Raphson" := MethodReport(nr.root, nr.iterations)])
  }

  /** Newton's run of task 2. */
  function NewtonRun(tol: real, maxIter: int): Result<RootFinding.NewtonOut>
  {
    RootFinding.NewtonFrom(RootFinding.Cubic, RootFinding.CubicSlope, tol, maxIter, TrueRoot, 0)
  }

  /** `compare_root_methods`: bisection on [0, 3], then Newton from 2. */
  function CompareRootMethods(p: Params): Outcome
  {
    var tol, maxIter := Tol(p), MaxIterParam(p);
    match RootFinding.Bisection(tol, maxIter)
    case Failure(e) => Raised(e)
    case Success(bis) =>
      match NewtonRun(tol, maxIter)
      case Failure(e) => Raised(e)
      case Success(nr) => Returned(CompareReport(bis, nr))
  }

  /** Task 2 raises exactly when `max_iter` < 1, and then with the
      bisection's unbound `mid`: Newton from the exact root never fails. */
  lemma CompareRootMethodsRaises(p: Params)
    ensures CompareRootMethods(p).Raised? <==> MaxIterParam(p) < 1
    ensures CompareRootMethods(p).Raised? ==> CompareRootMethods(p).error == RootFinding.MidUnbound
  {
    var tol, maxIter := Tol(p), MaxIterParam(p);
    RootFinding.BisectFromReport(RootFinding.Cubic, tol, maxIter, 0.0, 3.0, 0, None);
    RootFinding.NewtonStaysOnRoot(tol, maxIter, 0);
  }

  /** An entry for the exact root 2 reports it with relative error 0. */
  lemma ExactRootEntry(iterations: nat)
    ensures MethodReport(TrueRoot, iterations).entries["root"] == VFloat(2.0)
    ensures MethodReport(TrueRoot, iterations).entries["relative_error"] == VFloat(0.0)
  {
    assert IsRounded(2.0) && IsRounded(0.0);
  }

  /** Newton's entry of task 2 is the exact root 2, with relative error 0. */
  lemma NewtonEntryIsExact(p: Params)
    requires CompareRootMethods(p).Returned?
    ensures CompareRootMethods(p).value.entries["Newton-Raphson"].entries["root"] == VFloat(2.0)
    ensures CompareRootMethods(p).value.entries["Newton-Raphson"].entries["relative_error"] == VFloat(0.0)
  {
    var tol, maxIter := Tol(p), MaxIterParam(p);
    RootFinding.NewtonStaysOnRoot(tol, maxIter, 0);
    var bis := RootFinding.Bisection(tol, maxIter).value;
    var nr := NewtonRun(tol, maxIter).value;
    assert CompareRootMethods(p).value == CompareReport(bis, nr);
    assert CompareReport(bis, nr).entries["Newton-Raphson"] == MethodReport(TrueRoot, nr.iterations);
    ExactRootEntry(nr.iterations);
  }

  /** An entry for a root at most 1.5 reports a root at most 1.5, and a
      relative error against 2 of at least 0.25. */
  lemma RootEntryBelow(root: real, iterations: nat)
    requires root <= 1.5
    ensures MethodReport(root, iterations).entries["root"].x <= 1.5
    ensures MethodReport(root, iterations).entries["relative_error"].x >= 0.25
  {
    assert IsRounded(1.5) && IsRounded(0.25);
    RoundIsMonotone(root, 1.5);
    assert Abs(root - TrueRoot) / Abs(TrueRoot) >= 0.25;
    RoundIsMonotoneBelow(0.25, Abs(root - TrueRoot) / Abs(TrueRoot));
    assert MethodReport(root, iterations).entries["root"] == VFloat(Round6(root));
    assert MethodReport(root, iterations).entries["relative_error"]
        == VFloat(Round6(Abs(root - TrueRoot) / Abs(TrueRoot)));
  }

  /** For tol <= 0.375 (the default included) the bisection entry of task 2
      is a root of at most 1.5 with a relative error of at least 0.25, though
      the method's true root is 2. */
  lemma BisectionEntryStaysBelowTwo(p: Params)
    requires CompareRootMethods(p).Returned? && Tol(p) <= 0.375
    ensures CompareRootMethods(p).value.entries["Bisection"].entries["root"].x <= 1.5
    ensures CompareRootMethods(p).value.entries["Bisection"].entries["relative_error"].x >= 0.25
  {
    var tol, maxIter := Tol(p), MaxIterParam(p);
    CompareRootMethodsRaises(p);
    RootFinding.BisectionStaysBelowTwo(tol, maxIter);
    var bis := RootFinding.Bisection(tol, maxIter).value;
    var nr := NewtonRun(tol, maxIter).value;
    assert CompareRootMethods(p).value == CompareReport(bis, nr);
    assert CompareReport(bis, nr).entries["Bisection"] == MethodReport(bis.root, bis.iterations);
    RootEntryBelow(bis.root, bis.iterations);
  }

  /** Rounding never moves a value past a rounded bound. */
  lemma RoundIsMonotone(x: real, bound: real)
    requires x <= bound && IsRounded(bound)
    ensures Round6(x) <= bound
  {
    var t := x * Scale;
    var bt := bound * Scale;
    assert bt.Floor as real == bt;
    assert t <= bt;
    assert t.Floor <= bt.Floor;
  }

  // ----------------------------------------------------------------- task 3

  function TripleValue(s: Relaxation.Triple): Value
  {
    VTuple([VFloat(s.x), VFloat(s.y), VFloat(s.z)])
  }

  /** The result mapping of task 3 for the run `r`. */
  function RelaxReport(r: Relaxation.RelaxOut): Value
  {
    VDict(map[
      "solution" := VDict(map[
        "x" := VFloat(Round6(r.solution.x)),
        "y" := VFloat(Round6(r.solution.y)),
        "z" := VFloat(Round6(r.solution.z))]),
      "iterations" := VInt(r.iterations),
      "iteration_values" := VList(seq(|r.trace|, i requires 0 <= i < |r.trace| => TripleValue(r.trace[i])))])
  }

  /** The relaxation run of task 3. */
  function RelaxRun(p: Params): Result<Relaxation.RelaxOut>
  {
    Relaxation.Relax(RealParam(p, "omega", DefaultOmega), Tol(p), MaxIterParam(p))
  }

  /** `relaxation_system`. */
  function RelaxationSystem(p: Params): Outcome
  {
    match RelaxRun(p)
    case Failure(e) => Raised(e)
    case Success(r) => Returned(RelaxReport(r))
  }

  /** Task 3 raises exactly when `max_iter` < 1 (with Python's unbound
      `i`); otherwise "iterations" counts the entries of
      "iteration_values", at least one and at most `max_iter`, and the
      rounded "solution" is the last of them. */
  lemma RelaxationSystemReport(p: Params)
    ensures RelaxationSystem(p).Raised? <==> MaxIterParam(p) < 1
    ensures RelaxationSystem(p).Raised? ==> RelaxationSystem(p).error == IUnbound
    ensures RelaxationSystem(p).Returned? ==>
      var r := RelaxRun(p).value;
      RelaxationSystem(p).value == RelaxReport(r)
      && Relaxation.Consistent(r, RealParam(p, "omega", DefaultOmega), Tol(p), MaxIterParam(p))
      && RelaxCounts(r)
  {
    Relaxation.RelaxIsConsistent(RealParam(p, "omega", DefaultOmega), Tol(p), MaxIterParam(p));
    if RelaxRun(p).Success? {
      RelaxReportCounts(RelaxRun(p).value);
    }
  }

  /** In the mapping of a run, "iterations" is the number of entries of
      "iteration_values", and the solution is the rounded last entry. */
  predicate RelaxCounts(r: Relaxation.RelaxOut)
  {
    var v := RelaxReport(r);
    var values := v.entries["iteration_values"].items;
    (r.iterations == |r.trace| ==> v.entries["iterations"] == VInt(|values|))
    && (|r.trace| > 0 && r.solution == r.trace[|r.trace| - 1] ==>
          values[|values| - 1] == TripleValue(r.solution)
          && v.entries["solution"].entries["x"] == VFloat(Round6(r.solution.x))
          && v.entries["solution"].entries["y"] == VFloat(Round6(r.solution.y))
          && v.entries["solution"].entries["z"] == VFloat(Round6(r.solution.z)))
  }

  lemma RelaxReportCounts(r: Relaxation.RelaxOut)
    ensures RelaxCounts(r)
  {
  }

  // ----------------------------------------------------------------- task 4

  /** The result mapping of task 4 for the run `r`. */
  function PowerReportValue(r: PowerIteration.PowerOut): Value
  {
    VDict(map[
      "largest_eigenvalue" := VFloat(Round6(r.lambda)),
      "iterations" := VInt(r.iterations),
      "eigenvector" := Floats(r.vector)])
  }

  /** The power run of task 4, on the user's matrix or the default. */
  function PowerRunOf(p: Params): Result<PowerIteration.PowerOut>
  {
    PowerIteration.PowerRun(PowerIteration.SelectMatrix(p.numbers), Tol(p), MaxIterParam(p))
  }

  /** `power_method_eigen`. */
  function PowerMethodEigen(p: Params): Outcome
  {
    match PowerRunOf(p)
    case Failure(e) => Raised(e)
    case Success(r) => Returned(PowerReportValue(r))
  }

  /** Task 4 raises with the unbound `lambda_approx` when `max_iter` < 1 and (in this
      model) on a zero maximum otherwise; what it returns is a run that
      keeps the power method's promises: a normalised eigenvector estimate
      (unrounded) and an estimate lambda > 0 that it scales by. */
  lemma PowerMethodEigenReport(p: Params)
    ensures PowerMethodEigen(p).Raised? ==>
      (MaxIterParam(p) < 1 && PowerMethodEigen(p).error == PowerIteration.LambdaUnbound)
      || (MaxIterParam(p) >= 1 && PowerMethodEigen(p).error == PowerIteration.ZeroMaximum)
    ensures PowerMethodEigen(p).Returned? ==>
      var r := PowerRunOf(p).value;
      PowerMethodEigen(p).value == PowerReportValue(r)
      && PowerIteration.PowerReport(PowerIteration.SelectMatrix(p.numbers), r, Tol(p), MaxIterParam(p))
  {
    PowerIteration.PowerRunReport(PowerIteration.SelectMatrix(p.numbers), Tol(p), MaxIterParam(p));
  }

  // ----------------------------------------------------------------- task 5

  const NotEnoughData: string := "Not enough data for fitting."

  /** The validation of task 5, on its default lists. */
  function ExpChecked(p: Params, parse: string -> Option<real>): Result<(seq<real>, seq<real>)>
  {
    ValidatePairs(p.xValues, p.yValues, ExpPiecesX, ExpPiecesY, parse, NotEnoughData)
  }

  /** The result mapping of task 5 for the fit y = a * exp(b * x). */
  function FitReport(a: real, b: real, env: Env): (v: Value)
    ensures v.VDict? && "error" !in v.entries
  {
    VDict(map[
      "a" := VFloat(Round6(a)),
      "b" := VFloat(Round6(b)),
      "equation" := VStr(env.equation(a, b)),
      GraphKey := VStr(env.graph(5))])
  }

  /** `exponential_fit`: validation, then the fit obtained from outside. */
  function ExponentialFit(p: Params, env: Env): Outcome
  {
    match ExpChecked(p, env.parse)
    case Failure(e) => Returned(ErrorResult(e))
    case Success((x, y)) =>
      var (a, b) := env.expFit(x, y);
      Returned(FitReport(a, b, env))
  }

  // ----------------------------------------------------------------- task 6

  const NotEnoughPoints: string := "Not enough points for interpolation."

  /** The validation of task 6, on its default lists. */
  function SplineChecked(p: Params, parse: string -> Option<real>): Result<(seq<real>, seq<real>)>
  {
    ValidatePairs(p.xValues, p.yValues, SplinePiecesX, SplinePiecesY, parse, NotEnoughPoints)
  }

  /** The result mapping of task 6 for scipy's coefficient matrix `c`. */
  function SplineReport(c: seq<seq<real>>, env: Env): (v: Value)
    ensures v.VDict? && "error" !in v.entries
  {
    VDict(map[
      "spline_coeffs" := VList(seq(|c|, i requires 0 <= i < |c| => Floats(c[i]))),
      "spline_function" := VStr("Done"),
      GraphKey := VStr(env.graph(6))])
  }

  /** `cubic_spline`: validation, then the coefficients from outside. */
  function CubicSpline(p: Params, env: Env): Outcome
  {
    match SplineChecked(p, env.parse)
    case Failure(e) => Returned(ErrorResult(e))
    case Success((x, y)) =>
      match env.spline(x, y)
      case Failure(e) => Raised(e)
      case Success(c) => Returned(SplineReport(c, env))
  }

  // ----------------------------------------------------------------- task 7

  /** `picard_method`: the five approximations (printed here as their
      coefficient lists) and y4(0.2). */
  function PicardMethod(): Outcome
  {
    var ys := Picard.Approximations();
    Returned(VDict(map[
      "approximations" := VList(seq(5, k requires 0 <= k < 5 => Floats(ys[k]))),
      "y(0.2)" := VFloat(Eval(ys[4], Picard.EvalPoint))]))
  }

  // ----------------------------------------------------------------- task 8

  const Subintervals: nat := 10
  const ExactIntegral: real := 2.0

  /** `np.linspace(0, pi, 11)` mapped through `np.sin`. */
  function SineSamples(env: Env): (fs: seq<real>)
    ensures |fs| == Subintervals + 1
  {
    seq(Subintervals + 1, k requires 0 <= k <= Subintervals => env.sine(k as real * (env.pi / Subintervals as real)))
  }

  /** The result mapping of task 8 for the approximation `approx`. */
  function SimpsonReport(approx: real, graph: string): Value
  {
    VDict(map[
      "integral_approx" := VFloat(Round6(approx)),
      "exact_value" := VFloat(ExactIntegral),
      "absolute_error" := VFloat(Round6(Abs(ExactIntegral - approx))),
      GraphKey := VStr(graph)])
  }

  /** The Simpson sum of task 8, with h = (pi - 0)/10. */
  function SineIntegral(env: Env): real
  {
    Simpson.SimpsonSum((env.pi - 0.0) / Subintervals as real, SineSamples(env))
  }

  /** `simpsons_rule`: the integral of sin over [0, pi] with ten subintervals. */
  function SimpsonsRule(env: Env): Outcome
  {
    Returned(SimpsonReport(SineIntegral(env), env.graph(8)))
  }

  /** Task 8 computes the composite Simpson rule over its eleven samples:
      h/3 times the sum of the five panels, with h = pi/10. */
  lemma SineIntegralIsComposite(env: Env)
    ensures SineIntegral(env) == env.pi / 30.0 * Simpson.PanelSum(SineSamples(env), 5)
  {
    var fs := SineSamples(env);
    var h := (env.pi - 0.0) / Subintervals as real;
    Simpson.SimpsonIsComposite(h, fs);
    assert (|fs| - 1) / 2 == 5;
    assert h / 3.0 == env.pi / 30.0;
  }

  /** The reported error of task 8 is never negative, rounding included,
      and the reported approximation is the rounded sum. */
  lemma SimpsonReportBounds(approx: real, graph: string)
    ensures SimpsonReport(approx, graph).entries["integral_approx"] == VFloat(Round6(approx))
    ensures SimpsonReport(approx, graph).entries["absolute_error"].x >= 0.0
  {
    assert IsRounded(0.0);
    RoundIsMonotoneBelow(0.0, Abs(ExactIntegral - approx));
  }

  /** Rounding never moves a value below a rounded lower bound. */
  lemma RoundIsMonotoneBelow(bound: real, x: real)
    requires bound <= x && IsRounded(bound)
    ensures bound <= Round6(x)
  {
    var t := x * Scale;
    var bt := bound * Scale;
    assert bt.Floor as real == bt;
    assert bt <= t;
    assert bt.Floor <= t.Floor;
  }

  // ------------------------------------------------------------- dispatcher

  predicate IsTask(taskId: int)
  {
    1 <= taskId <= 8
  }

  /** The fixed table of `solve`, from task number to kernel. */
  function Kernel(taskId: int, p: Params, env: Env): Outcome
    requires IsTask(taskId)
  {
    match taskId
    case 1 => PlotGraph(p, env)
    case 2 => CompareRootMethods(p)
    case 3 => RelaxationSystem(p)
    case 4 => PowerMethodEigen(p)
    case 5 => ExponentialFit(p, env)
    case 6 => CubicSpline(p, env)
    case 7 => PicardMethod()
    case 8 => SimpsonsRule(env)
  }

  /** `solve`: the formatted result of the task's kernel, or the error
      mapping for a number outside the table. */
  function Solve(taskId: int, p: Params, env: Env): (r: Outcome)
    ensures r.Returned? ==> Formatted(r.value)
    ensures !IsTask(taskId) ==> r == Returned(ErrorResult(InvalidTask))
    ensures IsTask(taskId) && Kernel(taskId, p, env).Returned? ==>
      r == Returned(Format(Kernel(taskId, p, env).value))
    ensures IsTask(taskId) && Kernel(taskId, p, env).Raised? ==> r == Kernel(taskId, p, env)
  {
    if IsTask(taskId) then
      match Kernel(taskId, p, env)
      case Returned(v) => Returned(Format(v))
      case Raised(e) => Raised(e)
    else
      assert Formatted(ErrorResult(InvalidTask));
      Returned(ErrorResult(InvalidTask))
  }

  /** An unknown task gets a mapping whose only key is "error". */
  lemma UnknownTaskIsError(taskId: int, p: Params, env: Env)
    requires !IsTask(taskId)
    ensures Solve(taskId, p, env).Returned?
    ensures Solve(taskId, p, env).value.entries.Keys == {"error"}
    ensures Solve(taskId, p, env).value.entries["error"] == VStr(InvalidTask)
  {
  }

  /** Solving twice formats nothing further. */
  lemma SolveIsFormatted(taskId: int, p: Params, env: Env)
    requires Solve(taskId, p, env).Returned?
    ensures Format(Solve(taskId, p, env).value) == Solve(taskId, p, env).value
  {
    FormatFixesFormatted(Solve(taskId, p, env).value);
  }

  /** The validation failure of tasks 5 and 6, or None for other tasks. */
  function ValidationFailure(taskId: int, p: Params, parse: string -> Option<real>): Option<string>
  {
    if taskId == 5 && ExpChecked(p, parse).Failure? then Some(ExpChecked(p, parse).error)
    else if taskId == 6 && SplineChecked(p, parse).Failure? then Some(SplineChecked(p, parse).error)
    else None
  }


  /** The kernels without input validation never produce an "error" key. */
  lemma UnvalidatedKeys(taskId: int, p: Params, env: Env)
    requires IsTask(taskId) && taskId != 5 && taskId != 6 && Kernel(taskId, p, env).Returned?
    ensures Kernel(taskId, p, env).value.VDict? && "error" !in Kernel(taskId, p, env).value.entries
  {
    if taskId == 1 {
      PlotGraphKeys(p, env);
    } else if taskId == 2 {
      CompareKeys(p);
    } else if taskId == 3 {
      RelaxationKeys(p);
    } else if taskId == 4 {
      PowerKeys(p);
    } else if taskId == 7 {
      PicardKeys();
    } else {
      SimpsonKeys(env);
    }
  }

  lemma PlotGraphKeys(p: Params, env: Env)
    ensures PlotGraph(p, env).Returned? ==> PlotGraph(p, env).value.VDict? && "error" !in PlotGraph(p, env).value.entries
  {
  }

  lemma CompareKeys(p: Params)
    ensures CompareRootMethods(p).Returned? ==>
      CompareRootMethods(p).value.VDict? && "error" !in CompareRootMethods(p).value.entries
  {
  }

  lemma RelaxationKeys(p: Params)
    ensures RelaxationSystem(p).Returned? ==>
      RelaxationSystem(p).value.VDict? && "error" !in RelaxationSystem(p).value.entries
  {
  }

  lemma PowerKeys(p: Params)
    ensures PowerMethodEigen(p).Returned? ==>
      PowerMethodEigen(p).value.VDict? && "error" !in PowerMethodEigen(p).value.entries
  {
  }

  lemma PicardKeys()
    ensures PicardMethod().value.VDict? && "error" !in PicardMethod().value.entries
  {
  }

  lemma SimpsonKeys(env: Env)
    ensures SimpsonsRule(env).value.VDict? && "error" !in SimpsonsRule(env).value.entries
  {
  }

  /** Tasks 5 and 6 produce an "error" key exactly when their input is
      rejected, and then alone. */
  lemma ValidatedKeys(taskId: int, p: Params, env: Env)
    requires (taskId == 5 || taskId == 6) && Kernel(taskId, p, env).Returned?
    ensures var v := Kernel(taskId, p, env).value;
      v.VDict?
      && ("error" in v.entries <==> ValidationFailure(taskId, p, env.parse).Some?)
      && (ValidationFailure(taskId, p, env.parse).Some? ==>
            v.entries.Keys == {"error"} && v.entries["error"] == VStr(ValidationFailure(taskId, p, env.parse).value))
  {
    if taskId == 5 {
      assert Kernel(taskId, p, env) == ExponentialFit(p, env);
      ExpFitKeys(p, env);
    } else {
      assert Kernel(taskId, p, env) == CubicSpline(p, env);
      SplineKeys(p, env);
    }
  }

  lemma ExpFitKeys(p: Params, env: Env)
    ensures var v := ExponentialFit(p, env).value;
      v.VDict? && ("error" in v.entries <==> ValidationFailure(5, p, env.parse).Some?)
      && (ValidationFailure(5, p, env.parse).Some? ==>
            v.entries.Keys == {"error"} && v.entries["error"] == VStr(ValidationFailure(5, p, env.parse).value))
  {
    var checked := ExpChecked(p, env.parse);
    if checked.Success? {
      var (a, b) := env.expFit(checked.value.0, checked.value.1);
      assert ExponentialFit(p, env) == Returned(FitReport(a, b, env));
    }
  }

  lemma SplineKeys(p: Params, env: Env)
    ensures CubicSpline(p, env).Returned? ==>
      var v := CubicSpline(p, env).value;
      v.VDict? && ("error" in v.entries <==> ValidationFailure(6, p, env.parse).Some?)
      && (ValidationFailure(6, p, env.parse).Some? ==>
            v.entries.Keys == {"error"} && v.entries["error"] == VStr(ValidationFailure(6, p, env.parse).value))
  {
    var checked := SplineChecked(p, env.parse);
    if checked.Failure? {
      assert CubicSpline(p, env) == Returned(ErrorResult(checked.error));
    } else {
      var fitted := env.spline(checked.value.0, checked.value.1);
      if fitted.Success? {
        assert CubicSpline(p, env) == Returned(SplineReport(fitted.value, env));
      }
    }
  }

  /** The keys of each kernel's result mapping: only the rejected inputs
      of tasks 5 and 6 produce an "error" key, and then alone. */
  lemma KernelErrorKey(taskId: int, p: Params, env: Env)
    requires IsTask(taskId) && Kernel(taskId, p, env).Returned?
    ensures var v := Kernel(taskId, p, env).value;
      v.VDict?
      && ("error" in v.entries <==> ValidationFailure(taskId, p, env.parse).Some?)
      && (ValidationFailure(taskId, p, env.parse).Some? ==>
            v.entries.Keys == {"error"} && v.entries["error"] == VStr(ValidationFailure(taskId, p, env.parse).value))
  {
    if taskId == 5 || taskId == 6 {
      ValidatedKeys(taskId, p, env);
    } else {
      UnvalidatedKeys(taskId, p, env);
    }
  }

  /** For a known task, an "error" key appears exactly when tasks 5 or 6
      reject their input, and then it is the only key. */
  lemma ErrorKeyIffValidationFails(taskId: int, p: Params, env: Env)
    requires IsTask(taskId) && Solve(taskId, p, env).Returned?
    ensures var v := Solve(taskId, p, env).value;
      v.VDict?
      && ("error" in v.entries <==> ValidationFailure(taskId, p, env.parse).Some?)
      && (ValidationFailure(taskId, p, env.parse).Some? ==>
            v.entries.Keys == {"error"} && v.entries["error"] == VStr(ValidationFailure(taskId, p, env.parse).value))
  {
    KernelErrorKey(taskId, p, env);
    var v := Kernel(taskId, p, env).value;
    if ValidationFailure(taskId, p, env.parse).Some? {
      FormatDictValue(v, "error");
    }
  }

  lemma CompareDefaultsReturn()
    ensures CompareRootMethods(NoParams).Returned?
  {
    CompareRootMethodsRaises(NoParams);
  }

  lemma FitDefaultsReturn(env: Env)
    requires ParsesAll(env.parse, ExpPiecesX) && ParsesAll(env.parse, ExpPiecesY)
    ensures ExpChecked(NoParams, env.parse).Success?
    ensures ExponentialFit(NoParams, env).Returned?
  {
  }

  lemma SplineDefaultsReturn(env: Env)
    requires ParsesAll(env.parse, SplinePiecesX) && ParsesAll(env.parse, SplinePiecesY)
    requires env.spline(ParseAll(env.parse, SplinePiecesX).value, ParseAll(env.parse, SplinePiecesY).value).Success?
    ensures SplineChecked(NoParams, env.parse).Success?
    ensures CubicSpline(NoParams, env).Returned?
  {
  }

  lemma RelaxationDefaultsReturn()
    ensures RelaxationSystem(NoParams).Returned?
  {
    assert Relaxation.Relax(DefaultOmega, DefaultTol, DefaultMaxIter).Success?;
  }

  /** The default matrix never drives the maximum to zero. */
  lemma PowerDefaultsReturn()
    ensures PowerMethodEigen(NoParams).Returned?
  {
    assert PowerIteration.SelectMatrix(NoParams.numbers) == PowerIteration.DefaultMatrix by {
      assert "a11" !in NoParams.numbers;
    }
    PowerIteration.DefaultNeverDegenerates(DefaultTol, DefaultMaxIter, PowerIteration.Ones, 0);
  }

  /** With no parameters at all, tasks 2 to 8 return: tasks 5 and 6 when
      `float()` accepts the pieces of their default lists, and task 6 when
      scipy accepts the default data. */
  lemma DefaultsReturn(taskId: int, env: Env)
    requires 2 <= taskId <= 8
    requires DefaultsParse(taskId, env)
    ensures Kernel(taskId, NoParams, env).Returned?
  {
    if taskId == 2 {
      CompareDefaultsReturn();
    } else if taskId == 3 {
      RelaxationDefaultsReturn();
    } else if taskId == 4 {
      PowerDefaultsReturn();
    } else if taskId == 5 {
      FitDefaultsReturn(env);
      assert Kernel(taskId, NoParams, env) == ExponentialFit(NoParams, env);
    } else if taskId == 6 {
      SplineDefaultsReturn(env);
      assert Kernel(taskId, NoParams, env) == CubicSpline(NoParams, env);
    } else if taskId == 7 {
      assert Kernel(taskId, NoParams, env) == PicardMethod();
    } else {
      assert Kernel(taskId, NoParams, env) == SimpsonsRule(env);
    }
  }

  /** With no parameters at all, no validation fails (under the same
      conditions on `float()`). */
  lemma DefaultsValidate(taskId: int, env: Env)
    requires DefaultsParse(taskId, env)
    ensures ValidationFailure(taskId, NoParams, env.parse).None?
  {
    if taskId == 5 {
      FitDefaultsReturn(env);
    } else if taskId == 6 {
      SplineDefaultsReturn(env);
    }
  }

  /** What the defaults of tasks 5 and 6 need from code outside the model:
      every default piece converts, and scipy fits the default spline. */
  predicate DefaultsParse(taskId: int, env: Env)
  {
    (taskId == 5 ==> ParsesAll(env.parse, ExpPiecesX) && ParsesAll(env.parse, ExpPiecesY))
    && (taskId == 6 ==>
          ParsesAll(env.parse, SplinePiecesX) && ParsesAll(env.parse, SplinePiecesY)
          && env.spline(ParseAll(env.parse, SplinePiecesX).value, ParseAll(env.parse, SplinePiecesY).value).Success?)
  }

  /** With no parameters at all, tasks 2 to 8 return a result (under the
      conditions above) without an "error" key. */
  lemma DefaultsSucceed(taskId: int, env: Env)
    requires 2 <= taskId <= 8
    requires DefaultsParse(taskId, env)
    ensures Solve(taskId, NoParams, env).Returned?
    ensures Solve(taskId, NoParams, env).value.VDict?
    ensures "error" !in Solve(taskId, NoParams, env).value.entries
  {
    DefaultsReturn(taskId, env);
    DefaultsValidate(taskId, env);
    ErrorKeyIffValidationFails(taskId, NoParams, env);
  }
}
