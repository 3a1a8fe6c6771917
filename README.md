# Numerical methods backend — a Dafny model

The backend solves eight fixed numerical-methods exercises. `solve(task_id, params)`
picks one of eight kernels: the graphical method refined by Newton, bisection
against Newton, relaxation for a 3×3 system, the power method for the largest
eigenvalue, an exponential fit, a cubic spline, Picard's iteration and Simpson's
1/3 rule. It runs the kernel on the request parameters and passes the result
mapping through `format_result`. It rounds to six places a float at the top
level, a number one level inside a list, and the entries of a dict (all but
"graph") by the same rule. Floats inside tuples (task 3's "iteration_values") and
inside nested lists (task 6's "spline_coeffs") pass through unrounded. This
project models that dispatcher, the formatter, the kernels' loop control and
their result mappings, and proves what they promise.

Modelling choices:

- A Python float is an exact `real`. `round(x, 6)` is `ResultFormat.Round6`,
  which rounds half to even on the exact value.
- A result is a `Value` tree: float, int, bool, string, list, tuple, or dict (a `map`).
- A kernel either returns a value or raises. An uncaught exception is `Raised(message)`.
  - With `max_iter` < 1, Python reads an unbound variable: `mid` in task 2, `i` in
    task 3 and `lambda_approx` in task 4 (the first entry of its result). The model surfaces
    this as a `Raised` failure; it does not exclude the input.
  - A zero slope in Newton's update raises a division by zero.
- Scalar parameters reach the kernels already converted by `float()` and
  `int()`, as a `Parameters.Params` record. A comma-separated list arrives as its
  raw string, if given. It is split at commas (`Parameters.Split`, Python's
  `str.split`), and each piece is converted by `env.parse`, Python's `float()` on
  one piece; a piece that does not convert gives the format error.
- What comes from foreign code is a field of `Computations.Env`:
  - the rendered charts, as opaque strings;
  - `float()` on one piece of a list parameter;
  - `np.sin` and `math.pi`;
  - the exponential fit's (a, b) and its printed equation;
  - scipy's spline coefficients.
- Each loop is a `method` proved equal to a recursive specification function. The
  loops are Newton, bisection, relaxation and the power method. The kernels and
  `solve` are functions over those specification functions.
- Picard's approximations are computed exactly, as coefficient sequences (module `Polynomials`).

Modules:

- `result_format.dfy`: `format_result`.
- `root_finding.dfy`: the Newton and bisection loops.
- `relaxation.dfy`, `power_iteration.dfy`, `picard.dfy` and `simpson.dfy`: one kernel each.
- `parameters.dfy`: parameter defaults and the list validation.
- `computations.dfy`: the result mappings and `solve`.
- `wrappers.dfy`: `Option`, `Result`, `Abs` and the pass count of `range(n)`.

Where the code and its documentation disagree, the model follows the code:

- `compare_root_methods` says it reports the error against the true root 2.
  Its bisection on [0, 3] first keeps [0, 1.5], since f(0)·f(1.5) < 0. From then
  on it brackets the root 1. `RootFinding.BisectionStaysBelowTwo` proves that the
  reported root is at most 1.5 whenever `max_iter` ≥ 1 and tol ≤ 0.375, and
  `Computations.BisectionEntryStaysBelowTwo` that the reported relative error is
  then at least 0.25.
- The exponential fit takes `log` of y and does not check that y is positive (see
  "Left out").

## Model

| member | source | states |
|---|---|---|
| ResultFormat.Round6 | backend/computations.py:19-20 | the result lies on the 1e-6 grid and within half a step of x; an exact tie goes to the even neighbour; a value already on the grid is unchanged |
| ResultFormat.RoundElement | backend/computations.py:22 | a float list element is rounded; a bool element becomes the int 0 or 1, as `round(True, 6)` gives; any other element passes through |
| ResultFormat.Format | backend/computations.py:16-31 | the result is formatted; a float is rounded; a list keeps its length and each element is rounded one level down only; a dict keeps exactly its keys and its "graph" value; anything else is returned unchanged |
| ResultFormat.FormatDictValue | backend/computations.py:23-30 | every dict entry except "graph" is formatted recursively |
| ResultFormat.RoundElementFixes | backend/computations.py:22 | rounding an already formatted list element changes nothing |
| ResultFormat.FormatFixesFormatted | backend/computations.py:16-31 | a formatted value is a fixed point of the formatter |
| ResultFormat.FormatIdempotent | backend/computations.py:16-31 | formatting twice equals formatting once, for every value tree |
| ResultFormat.FormattedIffFixed | backend/computations.py:16-31 | a value is formatted exactly when the formatter leaves it unchanged |
| Wrappers.Abs | backend/computations.py:77 | `abs` is non-negative and equals x or -x |
| Wrappers.Range | backend/computations.py:75 | definition: the indices a `for` loop over `range(n)` visits, in order |
| Wrappers.RangeIndices | backend/computations.py:75 | `range(n)` has n elements for n ≥ 0 and none for negative n, and its k-th element is k |
| Wrappers.Passes | backend/computations.py:75 | the pass count is the length of `range(n)` |
| Parameters.RealParam | backend/computations.py:165-166 | `float(params.get(key, default))` is the key's entry of the request laid over a mapping holding only the default |
| Parameters.RealParamLaws | backend/computations.py:165-166 | a value given for the key wins, giving another key changes nothing, and an empty request gives the default |
| Parameters.MaxIterParam | backend/computations.py:167 | definition: `int(params.get("max_iter", 100))` |
| Parameters.Tol | backend/computations.py:206 | definition: `float(params.get("tol", 1e-6))`, read the same way at lines 72, 97 and 166 |
| Parameters.MaxIterParamLaws | backend/computations.py:167 | a given `max_iter` wins, an empty request gives 100, and the other parameters do not matter |
| Parameters.Join | backend/computations.py:230 | definition: pieces joined with the separator between them |
| Parameters.Split | backend/computations.py:230 | `str.split` yields at least one piece |
| Parameters.SplitJoin | backend/computations.py:230 | the pieces of a split contain no separator, number one more than the separators, and join back to the string |
| Parameters.SplitIsSeparatorFree | backend/computations.py:230 | no piece of a split contains the separator |
| Parameters.SplitCount | backend/computations.py:230 | a split has one more piece than the string has separators |
| Parameters.SplitJoinsBack | backend/computations.py:230 | joining the pieces of a split gives the string back |
| Parameters.SplitNoSeparator | backend/computations.py:230 | a string without the separator splits into itself alone |
| Parameters.SplitAfterPiece | backend/computations.py:230 | a separator-free prefix followed by the separator becomes the first piece |
| Parameters.JoinSplit | backend/computations.py:230 | splitting undoes joining separator-free pieces |
| Parameters.ParseAll | backend/computations.py:230 | the list comprehension of `float()` succeeds iff every piece converts, and then holds one value per piece, in order |
| Parameters.SeriesOrDefault | backend/computations.py:229-233 | the list given, split at commas, or else its default pieces, converts iff every piece does, one value per piece; a given list then has one more value than commas |
| Parameters.ValidatePairs | backend/computations.py:229-235 | succeeds iff both lists parse, have equal lengths and have at least two points; a parse failure gives the format error, otherwise the too-few error |
| Parameters.ExpXSplits | backend/computations.py:230 | the default "0,1,2,3" splits into its four pieces |
| Parameters.ExpYSplits | backend/computations.py:231 | the default "1,2.71828,7.38906,20.0855" splits into its four pieces |
| Parameters.SplineXSplits | backend/computations.py:267 | the default "0,0.5,1.0,1.5" splits into its four pieces |
| Parameters.SplineYSplits | backend/computations.py:268 | the default "0,0.25,0.75,2.25" splits into its four pieces |
| Parameters.TooFewMeansNoComma | backend/computations.py:234 | a given list that converts has fewer than two points exactly when it has no comma |
| Polynomials.Eval | backend/computations.py:313 | definition: the value of a coefficient sequence at a point, used for `y4.subs(x, 0.2)` |
| Polynomials.Add | backend/computations.py:305 | the sum of two coefficient sequences is as long as the longer |
| Polynomials.Integrate | backend/computations.py:305 | the antiderivative has one more coefficient |
| Polynomials.Derivative | backend/computations.py:305 | the derivative of a non-empty polynomial has one coefficient fewer |
| Polynomials.EvalAdd | backend/computations.py:305 | evaluation distributes over polynomial addition at every x |
| Polynomials.DerivativeOfIntegral | backend/computations.py:305 | differentiating the term-by-term integral gives the integrand back |
| Polynomials.IntegralAtZero | backend/computations.py:305 | the integral from 0 vanishes at x = 0 |
| Polynomials.DerivativeIgnoresConstant | backend/computations.py:305 | adding a constant does not change the derivative |
| Polynomials.AddConstantKeepsTail | backend/computations.py:305 | adding a constant changes only the constant coefficient |
| Polynomials.DerivativeOfTail | backend/computations.py:305 | polynomials that differ only in the constant coefficient have the same derivative |
| Picard.PicardStep | backend/computations.py:304-305 | y_{k+1} = 1 + ∫₀ˣ (t + y_k) satisfies y_{k+1}(0) = 1 and y_{k+1}' = x + y_k, the ODE dy/dx = x + y |
| Picard.Approximations | backend/computations.py:303-311 | five approximations; y0 = 1; each is the Picard step of the one before |
| Picard.InitialCondition | backend/computations.py:297-311 | every approximation satisfies y_k(0) = 1 |
| Picard.StepCoefficients | backend/computations.py:306-311 | the coefficients of one Picard step: 1, y[0], (y[1]+1)/2, then y[i-1]/i |
| Picard.FirstStep | backend/computations.py:304-305 | y1 = 1 + x + x²/2, as the comment at line 304 says |
| Picard.ApproximationsAreDocumented | backend/computations.py:303-311 | the five approximations are 1, 1+x+x²/2, 1+x+x²+x³/6, 1+x+x²+x³/3+x⁴/24 and 1+x+x²+x³/3+x⁴/12+x⁵/120 |
| Picard.ValueAtEvalPoint | backend/computations.py:313-316 | y4(0.2) = 466051/375000 exactly |
| RootFinding.PolynomialsAsWritten | backend/computations.py:47-50 | the coefficient sequences evaluate to x⁴ − 10x² + 9 and its slope 4x³ − 20x, and to the cubic and slope at lines 100-103 |
| RootFinding.SlopesAreDerivatives | backend/computations.py:47-50 | both slopes, here and at lines 100-103, are the derivatives of their functions |
| RootFinding.NewtonFrom | backend/computations.py:74-79 | definition: the Newton loop from pass k, also the loop at lines 124-131 |
| RootFinding.NewtonFromBounds | backend/computations.py:74-79 | a Newton run fails only by division by zero; it makes at most `max_iter` updates; it stops early only with abs(f(root)) < tol; otherwise it used every pass |
| RootFinding.Newton | backend/computations.py:74-79 | the loop computes the Newton specification and keeps all of the bounds above |
| RootFinding.NewtonStaysOnRoot | backend/computations.py:124-131 | Newton on the cubic from 2.0 never raises and reports exactly 2.0 |
| RootFinding.BisectFrom | backend/computations.py:108-121 | definition: the bisection loop from pass k on bracket [a, b] |
| RootFinding.Bisection | backend/computations.py:108-121 | definition: the bisection loop on the fixed bracket [0, 3] of the cubic, from pass 0 |
| RootFinding.HalveBracket | backend/computations.py:111-119 | either half of a bracket of width 3/2^k has width 3/2^(k+1) |
| RootFinding.BisectFromReport | backend/computations.py:108-121 | the loop fails exactly when there was no pass; otherwise the final bracket lies in [0, 3] inside the starting one and has width 3/2^k, with k ≤ `max_iter` counted halvings; on convergence the root is its midpoint and passes the test, and when the passes run out the root is the last midpoint, an endpoint |
| RootFinding.FinalReport | backend/computations.py:120-121 | when the passes run out, the `else` branch reports the last midpoint |
| RootFinding.StopReport | backend/computations.py:112-114 | a midpoint that passes the stopping test is the reported root |
| RootFinding.Widen | backend/computations.py:116-119 | a result for the half-bracket is a result for the whole bracket |
| RootFinding.BisectionLoop | backend/computations.py:108-121 | the loop computes the bisection specification, with the failure on `max_iter` < 1 and the bracket report above |
| RootFinding.BisectionStaysBelowTwo | backend/computations.py:108-121 | with `max_iter` ≥ 1 and tol ≤ 0.375 the loop keeps [0, 1.5] first, so it succeeds and the reported root is at most 1.5, never the documented 2 |
| Relaxation.Update | backend/computations.py:173-175 | definition: the simultaneous update of the three coordinates |
| Relaxation.Settled | backend/computations.py:176-177 | definition: the stopping test, every coordinate moved by less than tol |
| Relaxation.TraceFrom | backend/computations.py:170-180 | definition: the triples the loop records from pass k on |
| Relaxation.SolutionIsUnique | backend/computations.py:155-158 | (2, 4, 4) is the one solution of x+y+z = 10, x+z = 6, y+z = 8 |
| Relaxation.FixedPointsAreSolutions | backend/computations.py:173-175 | a solution is a fixed point of the update for every ω, and for ω ≠ 0 every fixed point is a solution |
| Relaxation.TraceFromIsRelaxTrace | backend/computations.py:170-180 | at most `max_iter` entries; each is the update applied to the previous triple; only the last may be settled, and it is settled or the passes ran out |
| Relaxation.RelaxTraceIsTraceFrom | backend/computations.py:170-180 | any sequence with those properties is exactly the trace the loop records |
| Relaxation.Relax | backend/computations.py:170-183 | the run fails exactly when `max_iter` < 1 |
| Relaxation.RelaxIsConsistent | backend/computations.py:170-183 | the failure is the unbound `i`; a successful run reports count = trace length, with 1 ≤ count ≤ `max_iter`, and the solution equal to the last trace entry |
| Relaxation.TraceStep | backend/computations.py:172-180 | one pass appends the new triple and leaves the rest of the run unchanged |
| Relaxation.RelaxIs | backend/computations.py:181-183 | the recorded trace and its last triple are what the run reports |
| Relaxation.RelaxationLoop | backend/computations.py:170-183 | the loop computes the relaxation specification: it fails exactly on `max_iter` < 1 with the unbound `i`, and otherwise reports a consistent trace |
| PowerIteration.Key | backend/computations.py:195 | definition: the parameter name of entry (i, j), a11 .. a33 |
| PowerIteration.HasAllEntries | backend/computations.py:196 | definition: `all(k in params for k in keys)` |
| PowerIteration.SelectMatrix | backend/computations.py:195-205 | the nine given entries are used iff all of a11 .. a33 are present; otherwise the default [[6,2,3],[2,6,4],[3,4,6]] |
| PowerIteration.MatVec | backend/computations.py:211 | A·x of a 3×3 matrix and a 3-vector is a 3-vector |
| PowerIteration.Dot | backend/computations.py:211 | definition: the dot product of one row of A with x, as in `np.dot(A, x)` |
| PowerIteration.MaxAbs | backend/computations.py:212 | the maximum is non-negative, bounds every abs(component) and is attained |
| PowerIteration.Divide | backend/computations.py:213 | division by a non-zero scalar keeps the length |
| PowerIteration.DivideByMaxAbsNormalises | backend/computations.py:211-213 | dividing by a non-zero max-abs leaves every abs(component) ≤ 1 and one equal to 1 |
| PowerIteration.QuotientBound | backend/computations.py:213 | a component divided by the maximum has abs at most 1, and exactly 1 where the maximum is attained |
| PowerIteration.Minus | backend/computations.py:214 | the difference of two vectors keeps the length |
| PowerIteration.NormBelow | backend/computations.py:214 | definition: `np.linalg.norm(x_new - x) < tol`, as a positive tol above the square root of the sum of squares |
| PowerIteration.SumSq | backend/computations.py:214 | the squared norm is non-negative |
| PowerIteration.NormBelowIsNormTest | backend/computations.py:214 | for the norm n (n ≥ 0, n² = sum of squares), the squared comparison holds iff n < tol |
| PowerIteration.PowerFrom | backend/computations.py:206-216 | definition: the power loop from pass k |
| PowerIteration.PowerRun | backend/computations.py:206-217 | definition: the run from the ones vector, failing with the unbound `lambda_approx` when there is no pass |
| PowerIteration.PowerFromReport | backend/computations.py:209-216 | a run fails only on a zero maximum; otherwise it reports 1 ≤ iterations ≤ `max_iter`, λ > 0, a normalised vector with A·x_prev = λ·x_new, and a stop before the last pass only on the norm test |
| PowerIteration.PassReport | backend/computations.py:210-215 | one pass produces such a report |
| PowerIteration.PassNormalises | backend/computations.py:211-213 | the vector of a pass is normalised |
| PowerIteration.PassScales | backend/computations.py:213 | the product A·x equals λ times the normalised vector |
| PowerIteration.PowerRunReport | backend/computations.py:206-217 | from the ones vector: the unbound `lambda_approx` when `max_iter` < 1, the zero maximum otherwise, or the report above |
| PowerIteration.FixedPointIsEigenpair | backend/computations.py:211-216 | if the vector no longer moves, (λ, x) is an eigenpair of A |
| PowerIteration.DotPositive | backend/computations.py:211 | positive vectors have a positive dot product |
| PowerIteration.DefaultNeverDegenerates | backend/computations.py:203-213 | on the default matrix from a positive vector, the maximum is never zero, so the run succeeds |
| PowerIteration.PowerMethod | backend/computations.py:206-217 | the loop computes the power-method specification, with both failures and the report above |
| Simpson.SliceSum | backend/computations.py:333 | definition: `sum(f[start:stop:2])` |
| Simpson.SimpsonSum | backend/computations.py:333 | definition: (h/3)·(f₀ + f_n + 4·Σ odd + 2·Σ even) |
| Simpson.SliceSumExtend | backend/computations.py:333 | extending a stride-2 slice by two adds the new element |
| Simpson.PrefixFormIsPanelSum | backend/computations.py:333 | the slice form of the weighted sum equals the sum over panels |
| Simpson.SimpsonIsComposite | backend/computations.py:333 | h/3·(f₀ + f_n + 4·Σ odd + 2·Σ even) is the composite rule: h/3 times the sum of the panels (f_{2j} + 4f_{2j+1} + f_{2j+2}) |
| Simpson.PanelSumOfConstant | backend/computations.py:333 | for constant samples the panel weights sum to 6 per panel, 3n in all |
| Simpson.ConstantIsExact | backend/computations.py:327-333 | constant samples c integrate exactly to c·(b − a) |
| Computations.ErrorResult | backend/computations.py:382 | definition: the mapping `{"error": message}`, also returned by validation at lines 233, 235, 270 and 272 |
| Computations.Floats | backend/computations.py:217 | `tolist()` keeps the length and puts component i, as a float, at position i |
| Computations.PlotReport | backend/computations.py:80-84 | definition: the mapping of task 1, with the estimate 3.1, the rounded Newton root and the rounded abs(3.1 − root) |
| Computations.QuarticRun | backend/computations.py:71-79 | definition: Newton on x⁴ − 10x² + 9 from 3.1 with the request's tol and `max_iter` |
| Computations.PlotGraph | backend/computations.py:36-84 | definition: Newton from 3.1 on the quartic, then the result mapping |
| Computations.PlotGraphReport | backend/computations.py:72-84 | task 1 raises only on division by zero; its mapping is built from the Newton run, with absolute error ≥ 0 |
| Computations.PlotGraphWithoutPasses | backend/computations.py:72-84 | with `max_iter` < 1 task 1 returns the estimate 3.1 as its root, with error 0 |
| Computations.PlotErrorIsNonNegative | backend/computations.py:80-83 | the rounded absolute error is never negative |
| Computations.MethodReport | backend/computations.py:133-145 | definition: one method's entry: the rounded root, the iteration count, and the rounded abs(root − 2)/abs(2) |
| Computations.CompareReport | backend/computations.py:135-146 | definition: the "Bisection" and "Newton-Raphson" entries |
| Computations.NewtonRun | backend/computations.py:124-131 | definition: Newton on the cubic from 2.0 |
| Computations.CompareRootMethods | backend/computations.py:89-148 | definition: bisection, then Newton, then the result mapping |
| Computations.CompareRootMethodsRaises | backend/computations.py:108-121 | task 2 raises iff `max_iter` < 1, with the unbound `mid` |
| Computations.ExactRootEntry | backend/computations.py:133-144 | an entry for root 2.0 reports root 2.0 and relative error 0.0 |
| Computations.NewtonEntryIsExact | backend/computations.py:124-146 | task 2's Newton entry is root 2.0 with relative error 0.0 |
| Computations.RootEntryBelow | backend/computations.py:133-139 | an entry for a root ≤ 1.5 reports a root ≤ 1.5 and a relative error ≥ 0.25 |
| Computations.BisectionEntryStaysBelowTwo | backend/computations.py:108-139 | with tol ≤ 0.375, task 2's bisection entry reports a root at most 1.5 and a relative error of at least 0.25 |
| Computations.RoundIsMonotone | backend/computations.py:137 | rounding never passes a bound that lies on the grid |
| Computations.TripleValue | backend/computations.py:176 | definition: the tuple `(x_new, y_new, z_new)` appended on each pass |
| Computations.RelaxReport | backend/computations.py:181-183 | definition: the rounded solution, the count and the recorded triples |
| Computations.RelaxRun | backend/computations.py:165-180 | definition: the relaxation run with ω, tol and `max_iter` from the request |
| Computations.RelaxationSystem | backend/computations.py:153-184 | definition: the relaxation run with ω, tol and `max_iter` from the request, then the result mapping |
| Computations.RelaxationSystemReport | backend/computations.py:165-184 | task 3 raises iff `max_iter` < 1, with the unbound `i`; otherwise its mapping comes from a consistent run, its "iterations" counts "iteration_values", and "solution" is the rounded last entry |
| Computations.RelaxReportCounts | backend/computations.py:181-183 | in the mapping, "iterations" is the length of "iteration_values" and "solution" is its last entry rounded |
| Computations.PowerReportValue | backend/computations.py:217 | definition: the rounded λ, the count and the eigenvector as a float list |
| Computations.PowerRunOf | backend/computations.py:195-216 | definition: the power run on the selected matrix with the request's tol and `max_iter` |
| Computations.PowerMethodEigen | backend/computations.py:189-218 | definition: the power run on the selected matrix, then the result mapping |
| Computations.PowerMethodEigenReport | backend/computations.py:206-218 | task 4 raises with the unbound `lambda_approx` when `max_iter` < 1; otherwise the model raises on a zero maximum, where numpy yields NaN; what it returns comes from a run with a normalised vector and λ > 0 |
| Computations.ExpChecked | backend/computations.py:229-235 | definition: the validation of task 5 with the default lists "0,1,2,3" and "1,2.71828,7.38906,20.0855" |
| Computations.ExponentialFit | backend/computations.py:223-256 | definition: validation, then the fit from outside and the result mapping |
| Computations.FitReport | backend/computations.py:256 | the fit's mapping has no "error" key |
| Computations.SplineChecked | backend/computations.py:266-272 | definition: the validation of task 6 with the default lists "0,0.5,1.0,1.5" and "0,0.25,0.75,2.25" |
| Computations.CubicSpline | backend/computations.py:261-290 | definition: validation, then scipy's coefficients and the result mapping |
| Computations.SplineReport | backend/computations.py:290 | the spline's mapping has no "error" key |
| Computations.PicardMethod | backend/computations.py:295-316 | definition: the five approximations and y4(0.2) |
| Computations.SineIntegral | backend/computations.py:330-333 | definition: the Simpson sum with h = π/10 over the eleven sine samples |
| Computations.SimpsonReport | backend/computations.py:334-335 | definition: the rounded approximation, the exact value 2.0, the rounded abs(2 − approximation) and the chart (lines 350-353) |
| Computations.SimpsonsRule | backend/computations.py:321-353 | definition: the Simpson sum over the eleven sine samples, then the result mapping |
| Computations.SineSamples | backend/computations.py:329-332 | eleven samples, for n = 10 subintervals |
| Computations.SineIntegralIsComposite | backend/computations.py:327-333 | task 8's approximation is π/30 times the sum of the five Simpson panels |
| Computations.SimpsonReportBounds | backend/computations.py:333-353 | "integral_approx" is the rounded approximation and "absolute_error" is ≥ 0 |
| Computations.RoundIsMonotoneBelow | backend/computations.py:352 | rounding never goes below a bound that lies on the grid |
| Computations.Kernel | backend/computations.py:370-379 | definition: the table from task number to kernel |
| Computations.Solve | backend/computations.py:358-382 | a known id gives `format_result` of exactly the mapped kernel's output; an exception passes through; any other id gives the "Invalid task number" dict; every returned value is formatted |
| Computations.UnknownTaskIsError | backend/computations.py:380-382 | an unknown id returns a dict whose only key is "error", with value "Invalid task number" |
| Computations.SolveIsFormatted | backend/computations.py:380-381 | formatting what `solve` returns changes nothing |
| Computations.UnvalidatedKeys | backend/computations.py:370-381 | the kernels other than 5 and 6 return a dict without an "error" key |
| Computations.PlotGraphKeys | backend/computations.py:81-84 | task 1's mapping has no "error" key |
| Computations.CompareKeys | backend/computations.py:135-146 | task 2's mapping has no "error" key |
| Computations.RelaxationKeys | backend/computations.py:181-183 | task 3's mapping has no "error" key |
| Computations.PowerKeys | backend/computations.py:217 | task 4's mapping has no "error" key |
| Computations.PicardKeys | backend/computations.py:316 | task 7's mapping has no "error" key |
| Computations.SimpsonKeys | backend/computations.py:350-353 | task 8's mapping has no "error" key |
| Computations.ValidatedKeys | backend/computations.py:229-235 | tasks 5 and 6 (and lines 266-272) give an "error" key iff validation fails, and then it is the only key |
| Computations.ExpFitKeys | backend/computations.py:229-235 | task 5 gives an "error" key iff validation fails, and then it is the only key |
| Computations.SplineKeys | backend/computations.py:266-272 | task 6, when it returns, gives an "error" key iff validation fails, and then it is the only key |
| Computations.KernelErrorKey | backend/computations.py:370-379 | over all eight kernels, "error" appears only on a rejected input of task 5 or 6, and then alone |
| Computations.ErrorKeyIffValidationFails | backend/computations.py:380-381 | the same holds after `format_result` |
| Computations.CompareDefaultsReturn | backend/computations.py:97-98 | task 2 with no parameters returns |
| Computations.FitDefaultsReturn | backend/computations.py:229-235 | when `float()` accepts the default pieces, task 5 with no parameters validates and returns |
| Computations.SplineDefaultsReturn | backend/computations.py:266-272 | when `float()` accepts the default pieces and scipy the default points, task 6 with no parameters validates and returns |
| Computations.RelaxationDefaultsReturn | backend/computations.py:165-167 | task 3 with no parameters returns |
| Computations.PowerDefaultsReturn | backend/computations.py:203-213 | task 4 with no parameters returns, on the default matrix |
| Computations.DefaultsReturn | backend/computations.py:370-379 | tasks 2 to 8 return on their defaults, given that `float()` accepts the default pieces and scipy the default spline points |
| Computations.DefaultsValidate | backend/computations.py:229-235 | under the same conditions, no validation of an empty request fails (and lines 266-272) |
| Computations.DefaultsSucceed | backend/computations.py:358-382 | `solve` on tasks 2 to 8 with no parameters returns a dict without an "error" key |

## Left out

- `app.py` (HTTP routing, JSON transport and its task-1 shortcut) and
  `static/script.js` (the web page) are not part of this model. They are
  transport and user interface.
- Plotting: building the matplotlib figure, saving the PNG and base64-encoding it.
  Each chart is an opaque string, `env.graph(task)`.
- `np.polyfit`, `np.log` and `np.exp` of the exponential fit are given as
  `env.expFit`, and its f-string as `env.equation`. As a result, the model has no
  overflow and no NaN from `log` of a non-positive y.
- Computations.ExponentialFit: always returns once validation passes, because
  `env.expFit` is total. With a non-positive y, numpy's `log` gives NaN and
  `np.polyfit` can raise (`LinAlgError`); the model does not raise there.
- scipy's `CubicSpline` construction and coefficients are given as `env.spline`,
  including the case where it raises. The dense evaluation feeds only the chart.
- `np.sin` and `math.pi` are given as `env.sine` and `env.pi`.
  - The Simpson sum is proved over an arbitrary sample sequence.
  - The model does not claim how close the result is to 2.
- `float()` and `int()` on the scalar parameters: they arrive already
  converted, so their parse errors (which Python would raise) are not modelled.
  On the pieces of a list, `float()` is given as `env.parse`; whether a piece
  such as " 2" or "1e3" converts is left to it.
- The debug `print` at backend/computations.py:147.
- Floating point: reals are exact, so there is no binary rounding, overflow or NaN anywhere.
  - ResultFormat.Round6 rounds the exact real half to even. Python rounds the
    binary double, whose ties and near-ties can come out differently.
- Dict key order: a dict is a `map`, so Python's insertion order is not modelled.
- Picard.Approximations returns coefficient sequences. The model does not
  reproduce sympy's printed strings such as "x**2/2 + x + 1".
- Computations.PicardMethod: its "approximations" entry is a list of
  coefficient lists of floats, not sympy's printed strings.
- PowerIteration.PowerMethod: a zero maximum is a `Failure`. numpy divides by
  zero there without raising and yields NaN entries.
- PowerIteration.PowerFrom: the definition the loop follows ends in the same
  `Failure` on a zero maximum, where numpy goes on with NaN entries.
- PowerIteration.PowerRun: inherits that `Failure` from PowerIteration.PowerFrom.
- Computations.PowerRunOf, Computations.PowerMethodEigen and
  Computations.PowerMethodEigenReport: inherit that `Failure`. Task 4 raises
  on a zero maximum, such as an all-zero matrix, where numpy returns NaN entries.
- PowerIteration.NormBelowIsNormTest: the stopping test compares squared
  distances. It is proved equivalent to `norm(...) < tol` for the non-negative
  square root but does not compute the square root.
- Computations.DefaultsSucceed: does not cover task 1. Newton from 3.1 would
  need its division by zero ruled out on every iterate. For tasks 5 and 6 it
  assumes that `env.parse` accepts the default pieces and, for task 6, that scipy
  accepts the default points.
