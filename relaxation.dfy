/** Task 3, `relaxation_system`: relaxation with weight omega for the system
    x + y + z = 10, x + z = 6, y + z = 8, with a simultaneous update and a
    trace of every iterate. */
module Relaxation {
  import opened Wrappers

  datatype Triple = Triple(x: real, y: real, z: real)

  /** The starting guess (0, 0, 0). */
  const Origin: Triple := Triple(0.0, 0.0, 0.0)

  /** The system the kernel solves. */
  predicate Solves(s: Triple)
  {
    s.x + s.y + s.z == 10.0 && s.x + s.z == 6.0 && s.y + s.z == 8.0
  }

  /** One relaxation pass; every new coordinate is computed from the
      previous triple only (z uses the old x). */
  function Update(omega: real, s: Triple): Triple
  {
    Triple((1.0 - omega) * s.x + omega * (10.0 - s.y - s.z),
           (1.0 - omega) * s.y + omega * (8.0 - s.z),
           (1.0 - omega) * s.z + omega * (6.0 - s.x))
  }

  /** The stopping test: every coordinate moved by less than tol. */
  predicate Settled(prev: Triple, next: Triple, tol: real)
  {
    Abs(next.x - prev.x) < tol && Abs(next.y - prev.y) < tol && Abs(next.z - prev.z) < tol
  }

  /** (2, 4, 4) is the one solution of the system. */
  lemma SolutionIsUnique(s: Triple)
    ensures Solves(s) <==> s == Triple(2.0, 4.0, 4.0)
  {
  }

  /** A solution of the system is a fixed point of the update for every
      omega, and for omega != 0 the fixed points are exactly the solutions. */
  lemma FixedPointsAreSolutions(omega: real, s: Triple)
    ensures Solves(s) ==> Update(omega, s) == s
    ensures omega != 0.0 && Update(omega, s) == s ==> Solves(s)
  {
    if omega != 0.0 && Update(omega, s) == s {
      assert omega * (10.0 - s.y - s.z - s.x) == 0.0;
      assert omega * (8.0 - s.z - s.y) == 0.0;
      assert omega * (6.0 - s.x - s.z) == 0.0;
    }
  }

  /** The update for a given omega, as a map on triples. */
  function Step(omega: real): Triple -> Triple
  {
    s => Update(omega, s)
  }

  /** The iterates recorded from state `s` at pass `k` under `step`: one
      per pass, up to and including the first that is settled, at most
      maxIter - k. */
  function TraceFrom(step: Triple -> Triple, tol: real, maxIter: int, s: Triple, k: nat): seq<Triple>
    decreases maxIter - k
  {
    if k >= maxIter then []
    else
      var next := step(s);
      if Settled(s, next, tol) then [next]
      else [next] + TraceFrom(step, tol, maxIter, next, k + 1)
  }

  /** The state before entry `j` of a trace starting from `s0`. */
  function Before(s0: Triple, trace: seq<Triple>, j: nat): Triple
    requires j < |trace|
  {
    if j == 0 then s0 else trace[j - 1]
  }

  /** What a trace of the loop from `s0` is, independently of how it is
      built: each entry is the step from the one before, no entry but the
      last is settled, and the last is settled or the passes ran out. */
  predicate IsRelaxTrace(step: Triple -> Triple, tol: real, passes: int, s0: Triple, trace: seq<Triple>)
  {
    1 <= |trace| <= passes
    && (forall j :: 0 <= j < |trace| ==> trace[j] == step(Before(s0, trace, j)))
    && (forall j :: 0 <= j < |trace| - 1 ==> !Settled(Before(s0, trace, j), trace[j], tol))
    && (Settled(Before(s0, trace, |trace| - 1), trace[|trace| - 1], tol) || |trace| == passes)
  }

  /** The trace the loop builds is a relaxation trace. */
  lemma {:induction false} TraceFromIsRelaxTrace(step: Triple -> Triple, tol: real, maxIter: int, s: Triple, k: nat)
    requires k < maxIter
    ensures IsRelaxTrace(step, tol, maxIter - k, s, TraceFrom(step, tol, maxIter, s, k))
    decreases maxIter - k
  {
    var t := TraceFrom(step, tol, maxIter, s, k);
    var next := step(s);
    if Settled(s, next, tol) || k + 1 >= maxIter {
      assert t == [next];
      assert Before(s, t, 0) == s;
    } else {
      var rest := TraceFrom(step, tol, maxIter, next, k + 1);
      TraceFromIsRelaxTrace(step, tol, maxIter, next, k + 1);
      assert t == [next] + rest;
      assert Before(s, t, 0) == s;
      forall j | 1 <= j < |t| ensures Before(s, t, j) == Before(next, rest, j - 1) && t[j] == rest[j - 1] {
      }
      assert |t| == |rest| + 1;
    }
  }

  /** A relaxation trace is unique: it is the one the loop builds. */
  lemma {:induction false} RelaxTraceIsTraceFrom(step: Triple -> Triple, tol: real, maxIter: int, s: Triple, k: nat, t: seq<Triple>)
    requires k < maxIter && IsRelaxTrace(step, tol, maxIter - k, s, t)
    ensures t == TraceFrom(step, tol, maxIter, s, k)
    decreases maxIter - k
  {
    var next := step(s);
    assert t[0] == next by { assert Before(s, t, 0) == s; }
    if |t| > 1 {
      assert !Settled(s, next, tol) by { assert Before(s, t, 0) == s; }
      var rest := t[1..];
      forall j | 0 <= j < |rest| ensures Before(next, rest, j) == Before(s, t, j + 1) {
      }
      assert IsRelaxTrace(step, tol, maxIter - (k + 1), next, rest);
      RelaxTraceIsTraceFrom(step, tol, maxIter, next, k + 1, rest);
    } else {
      assert Settled(s, next, tol) || maxIter - k == 1;
    }
  }

  /** What the kernel reports before rounding: the final triple, the
      iteration count `i + 1`, and the trace `iteration_values`. */
  datatype RelaxOut = RelaxOut(solution: Triple, iterations: nat, trace: seq<Triple>)

  /** The relaxation run from (0, 0, 0). With no pass at all, reading `i`
      raises. */
  function Relax(omega: real, tol: real, maxIter: int): (r: Result<RelaxOut>)
    ensures r.Failure? <==> maxIter < 1
  {
    if maxIter < 1 then Failure(IUnbound)
    else
      var trace := TraceFrom(Step(omega), tol, maxIter, Origin, 0);
      TraceFromIsRelaxTrace(Step(omega), tol, maxIter, Origin, 0);
      Success(RelaxOut(trace[|trace| - 1], |trace|, trace))
  }

  /** The trace is consistent with what is reported: the count is its
      length and at most maxIter, and the solution is its last entry. */
  predicate Consistent(r: RelaxOut, omega: real, tol: real, maxIter: int)
  {
    r.iterations == |r.trace| && 1 <= r.iterations <= maxIter
    && r.solution == r.trace[|r.trace| - 1]
    && IsRelaxTrace(Step(omega), tol, maxIter, Origin, r.trace)
  }

  lemma RelaxIsConsistent(omega: real, tol: real, maxIter: int)
    ensures var r := Relax(omega, tol, maxIter);
      (r.Failure? ==> r.error == IUnbound) && (r.Success? ==> Consistent(r.value, omega, tol, maxIter))
  {
    if maxIter >= 1 {
      var trace := TraceFrom(Step(omega), tol, maxIter, Origin, 0);
      TraceFromIsRelaxTrace(Step(omega), tol, maxIter, Origin, 0);
      RelaxIs(omega, tol, maxIter, trace, trace[|trace| - 1], |trace|);
    }
  }

  lemma ConcatAssoc(a: seq<Triple>, b: seq<Triple>, c: seq<Triple>)
    ensures a + (b + c) == (a + b) + c
  {
  }

  /** One pass of the loop keeps the recorded prefix and the rest of the
      run together equal to the whole trace. */
  lemma TraceStep(step: Triple -> Triple, tol: real, maxIter: int, s: Triple, i: nat, trace: seq<Triple>, full: seq<Triple>)
    requires i < maxIter && trace + TraceFrom(step, tol, maxIter, s, i) == full
    ensures var next := step(s);
      if Settled(s, next, tol) then trace + [next] == full
      else (trace + [next]) + TraceFrom(step, tol, maxIter, next, i + 1) == full
  {
    var next := step(s);
    var rest := TraceFrom(step, tol, maxIter, next, i + 1);
    if !Settled(s, next, tol) {
      assert TraceFrom(step, tol, maxIter, s, i) == [next] + rest;
      ConcatAssoc(trace, [next], rest);
    } else {
      assert TraceFrom(step, tol, maxIter, s, i) == [next];
    }
  }

  /** The run in terms of its whole trace: the loop that recorded `trace`
      and ended in `last` after `n` passes returns what `Relax` states. */
  lemma RelaxIs(omega: real, tol: real, maxIter: int, trace: seq<Triple>, last: Triple, n: nat)
    requires maxIter >= 1 && trace == TraceFrom(Step(omega), tol, maxIter, Origin, 0)
    requires n == |trace| >= 1 && last == trace[n - 1]
    ensures Relax(omega, tol, maxIter) == Success(RelaxOut(last, n, trace))
    ensures Consistent(RelaxOut(last, n, trace), omega, tol, maxIter)
  {
    TraceFromIsRelaxTrace(Step(omega), tol, maxIter, Origin, 0);
  }

  /** The loop of `relaxation_system`. */
  method RelaxationLoop(omega: real, tol: real, maxIter: int) returns (r: Result<RelaxOut>)
    ensures r == Relax(omega, tol, maxIter)
    ensures r.Failure? <==> maxIter < 1
    ensures r.Failure? ==> r.error == IUnbound
    ensures r.Success? ==> Consistent(r.value, omega, tol, maxIter)
  {
    var step := Step(omega);
    ghost var full := TraceFrom(step, tol, maxIter, Origin, 0);
    var s := Origin;
    var trace: seq<Triple> := [];
    var i: nat := 0;
    while i < maxIter
      invariant i <= Passes(maxIter) && |trace| == i
      invariant i > 0 ==> s == trace[i - 1]
      invariant trace + TraceFrom(step, tol, maxIter, s, i) == full
    {
      var next := step(s);
      TraceStep(step, tol, maxIter, s, i, trace, full);
      trace := trace + [next];
      if Settled(s, next, tol) {
        RelaxIs(omega, tol, maxIter, trace, next, i + 1);
        r := Success(RelaxOut(next, i + 1, trace));
        RelaxIsConsistent(omega, tol, maxIter);
        return;
      }
      s := next;
      i := i + 1;
    }
    if i == 0 {
      r := Failure(IUnbound);
      RelaxIsConsistent(omega, tol, maxIter);
    } else {
      assert TraceFrom(step, tol, maxIter, s, i) == [];
      assert trace + [] == trace;
      RelaxIs(omega, tol, maxIter, trace, s, i);
      r := Success(RelaxOut(s, i, trace));
    }
  }
}
