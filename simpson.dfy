/** Task 8, the weighted sum of `simpsons_rule`: the composite Simpson 1/3
    rule over a sequence of samples. */
module Simpson {

  /** `sum(fs[start:stop:2])` for a non-negative start: fs[start],
      fs[start + 2], ... for the indices below both `stop` and |fs|. */
  function SliceSum(fs: seq<real>, start: nat, stop: int): real
    decreases |fs| - start
  {
    if start >= stop || start >= |fs| then 0.0 else fs[start] + SliceSum(fs, start + 2, stop)
  }

  /** The expression of `simpsons_rule`, h/3 * (f[0] + f[-1] + 4*sum(f[1:-1:2]) +
      2*sum(f[2:-2:2])); the negative slice bounds count from the end. */
  function SimpsonSum(h: real, fs: seq<real>): real
    requires |fs| >= 1
  {
    h / 3.0 * (fs[0] + fs[|fs| - 1] + 4.0 * SliceSum(fs, 1, |fs| - 1) + 2.0 * SliceSum(fs, 2, |fs| - 2))
  }

  /** The textbook composite rule as a sum over panels: panel j contributes
      f[2j] + 4 f[2j+1] + f[2j+2]. */
  function PanelSum(fs: seq<real>, m: nat): real
    requires |fs| >= 2 * m + 1
  {
    if m == 0 then 0.0 else PanelSum(fs, m - 1) + fs[2 * m - 2] + 4.0 * fs[2 * m - 1] + fs[2 * m]
  }

  /** Raising the stop of a step-2 slice by two adds exactly one sample. */
  lemma {:induction false} SliceSumExtend(fs: seq<real>, start: nat, stop: int)
    requires start <= stop + 1 < |fs| && (stop + 1 - start) % 2 == 0
    ensures SliceSum(fs, start, stop + 2) == SliceSum(fs, start, stop) + fs[stop + 1]
    decreases stop - start
  {
    if start < stop {
      SliceSumExtend(fs, start + 2, stop);
    }
  }

  /** The unweighted form on the first m panels. */
  function PrefixForm(fs: seq<real>, m: nat): real
    requires 1 <= m && 2 * m < |fs|
  {
    fs[0] + fs[2 * m] + 4.0 * SliceSum(fs, 1, 2 * m) + 2.0 * SliceSum(fs, 2, 2 * m - 1)
  }

  lemma {:induction false} PrefixFormIsPanelSum(fs: seq<real>, m: nat)
    requires 1 <= m && 2 * m < |fs|
    ensures PrefixForm(fs, m) == PanelSum(fs, m)
  {
    if m == 1 {
      assert SliceSum(fs, 1, 2) == fs[1];
    } else {
      PrefixFormIsPanelSum(fs, m - 1);
      SliceSumExtend(fs, 1, 2 * m - 2);
      SliceSumExtend(fs, 2, 2 * m - 3);
    }
  }

  /** On an odd number of samples (an even number n of subintervals), the
      expression of `simpsons_rule` is the composite Simpson rule. */
  lemma SimpsonIsComposite(h: real, fs: seq<real>)
    requires |fs| >= 3 && |fs| % 2 == 1
    ensures SimpsonSum(h, fs) == h / 3.0 * PanelSum(fs, (|fs| - 1) / 2)
  {
    var m := (|fs| - 1) / 2;
    assert 2 * m == |fs| - 1 && 2 * m - 1 == |fs| - 2;
    PrefixFormIsPanelSum(fs, m);
    var n := |fs| - 1;
    assert n == 2 * m;
    assert fs[n] == fs[2 * m];
    assert SliceSum(fs, 1, n) == SliceSum(fs, 1, 2 * m);
    assert SliceSum(fs, 2, n - 1) == SliceSum(fs, 2, 2 * m - 1);
  }

  /** Constant samples: every panel weighs 1 + 4 + 1. */
  lemma {:induction false} PanelSumOfConstant(fs: seq<real>, m: nat, c: real)
    requires |fs| >= 2 * m + 1 && forall k :: 0 <= k < |fs| ==> fs[k] == c
    ensures PanelSum(fs, m) == 6.0 * m as real * c
  {
    if m > 0 {
      PanelSumOfConstant(fs, m - 1, c);
    }
  }

  /** The weights sum to 3n, so constant samples c over n subintervals of
      width h = (b - a)/n integrate exactly to c (b - a). */
  lemma ConstantIsExact(a: real, b: real, fs: seq<real>, c: real)
    requires |fs| >= 3 && |fs| % 2 == 1 && forall k :: 0 <= k < |fs| ==> fs[k] == c
    ensures SimpsonSum((b - a) / (|fs| - 1) as real, fs) == c * (b - a)
  {
    var n := |fs| - 1;
    var h := (b - a) / n as real;
    SimpsonIsComposite(h, fs);
    PanelSumOfConstant(fs, n / 2, c);
    assert 6.0 * (n / 2) as real == 3.0 * n as real;
    assert h / 3.0 * (3.0 * n as real * c) == h * n as real * c;
    assert h * n as real == b - a;
  }
}
