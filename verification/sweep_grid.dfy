/** The hyper-parameter grids of the sweeps: each parameter walks an
    additive or a multiplicative progression up to its maximum, and the
    parameters are nested, the first outermost (src/nntest.py:36-52,
    90-106, 120-139, 153-166, 228-250). Values are exact reals, so the
    rounding drift of float steps is not part of the model. */
module SweepGrid {

  /** One parameter's loop: `v = lo; while v <= hi: …; v += step` or
      `v *= factor`. */
  datatype Axis =
    | Additive(lo: real, hi: real, step: real)
    | Multiplicative(lo: real, hi: real, factor: real)

  /** The loop ends: it never runs, or it climbs by a positive step, or it
      starts positive and grows by a factor above 1. */
  predicate AxisEnds(a: Axis) {
    a.lo > a.hi || (if a.Additive? then a.step > 0.0 else a.lo > 0.0 && a.factor > 1.0)
  }

  /** How many more values an additive walk from `v` has. */
  function StepsLeft(v: real, hi: real, step: real): nat
    requires step > 0.0
  {
    if v > hi then 0 else ((hi - v) / step).Floor + 1
  }

  lemma StepsShrink(v: real, hi: real, step: real, next: real)
    requires step > 0.0 && v <= hi && next >= v + step
    ensures StepsLeft(next, hi, step) < StepsLeft(v, hi, step)
  {
    if next <= hi {
      var a, b := (hi - next) / step, (hi - v) / step;
      assert a * step == hi - next && b * step == hi - v;
      assert (b - 1.0 - a) * step == next - v - step;
      FactorNonNegative(b - 1.0 - a, step);
    }
  }

  lemma PositiveProduct(x: real, y: real)
    requires x > 0.0 && y > 0.0
    ensures x * y > 0.0
  {
  }

  lemma FactorNonNegative(x: real, s: real)
    requires s > 0.0 && x * s >= 0.0
    ensures x >= 0.0
  {
    if x < 0.0 {
      PositiveProduct(-x, s);
    }
  }

  /** A larger step leaves no more steps. */
  lemma StepsFewer(v: real, hi: real, d: real, d1: real)
    requires 0.0 < d <= d1
    ensures StepsLeft(v, hi, d1) <= StepsLeft(v, hi, d)
  {
    if v <= hi {
      var a, b := (hi - v) / d1, (hi - v) / d;
      assert a * d1 == hi - v && b * d == hi - v;
      assert (b - a) * d + a * (d - d1) == 0.0;
      FactorNonNegative(a, d1);
      if a > 0.0 && d1 > d {
        PositiveProduct(a, d1 - d);
      }
      FactorNonNegative(b - a, d);
    }
  }

  /** How many more values a multiplicative walk from `v` has at most: each
      step grows `v` by at least `v * (factor - 1)`. */
  function MulStepsLeft(v: real, hi: real, factor: real): nat {
    if v > 0.0 && factor > 1.0 then
      PositiveProduct(v, factor - 1.0);
      StepsLeft(v, hi, v * (factor - 1.0))
    else 0
  }

  /** The values of an additive walk from `v`. */
  function AddValues(v: real, hi: real, step: real): seq<real>
    requires step > 0.0
    decreases StepsLeft(v, hi, step)
  {
    if v > hi then []
    else
      StepsShrink(v, hi, step, v + step);
      [v] + AddValues(v + step, hi, step)
  }

  /** The values of a multiplicative walk from `v`. */
  function MulValues(v: real, hi: real, factor: real): seq<real>
    requires v > 0.0 && factor > 1.0
    decreases MulStepsLeft(v, hi, factor)
  {
    if v > hi then []
    else
      MulShrink(v, hi, factor);
      [v] + MulValues(v * factor, hi, factor)
  }

  lemma MulShrink(v: real, hi: real, factor: real)
    requires v > 0.0 && factor > 1.0 && v <= hi
    ensures v * factor > 0.0
    ensures MulStepsLeft(v * factor, hi, factor) < MulStepsLeft(v, hi, factor)
  {
    PositiveProduct(v, factor - 1.0);
    PositiveProduct(v, factor);
    var d := v * (factor - 1.0);
    var d1 := (v * factor) * (factor - 1.0);
    assert v * factor == v + d;
    assert d1 - d == d * (factor - 1.0);
    PositiveProduct(d, factor - 1.0);
    assert MulStepsLeft(v, hi, factor) == StepsLeft(v, hi, d);
    assert MulStepsLeft(v * factor, hi, factor) == StepsLeft(v * factor, hi, d1);
    StepsShrink(v, hi, d, v * factor);
    StepsFewer(v * factor, hi, d, d1);
  }

  /** The values a parameter takes, in order. */
  function AxisValues(a: Axis): seq<real>
    requires AxisEnds(a)
  {
    if a.lo > a.hi then []
    else if a.Additive? then AddValues(a.lo, a.hi, a.step)
    else MulValues(a.lo, a.hi, a.factor)
  }

  function Power(x: real, k: nat): real {
    if k == 0 then 1.0 else x * Power(x, k - 1)
  }

  lemma PowerShift(v: real, x: real, k: nat)
    ensures (v * x) * Power(x, k) == v * Power(x, k + 1)
  {
    assert Power(x, k + 1) == x * Power(x, k);
  }

  /** An additive walk visits `v + k*step` for k = 0, 1, … as long as that
      is at most `hi`. */
  lemma {:induction false} AddValuesAre(v: real, hi: real, step: real)
    requires step > 0.0
    ensures var r := AddValues(v, hi, step);
      && (forall k :: 0 <= k < |r| ==> r[k] == v + k as real * step && r[k] <= hi)
      && v + |r| as real * step > hi
    decreases StepsLeft(v, hi, step)
  {
    if v <= hi {
      StepsShrink(v, hi, step, v + step);
      AddValuesAre(v + step, hi, step);
      var r, rest := AddValues(v, hi, step), AddValues(v + step, hi, step);
      forall k | 0 <= k < |r|
        ensures r[k] == v + k as real * step
      {
        if k > 0 {
          assert r[k] == rest[k - 1];
          assert (v + step) + (k - 1) as real * step == v + k as real * step;
        }
      }
      assert (v + step) + |rest| as real * step == v + |r| as real * step;
    }
  }

  /** A multiplicative walk visits `v * factor^k` for k = 0, 1, … as long
      as that is at most `hi`. */
  lemma MulValuesAre(v: real, hi: real, factor: real)
    requires v > 0.0 && factor > 1.0
    ensures forall k :: 0 <= k < |MulValues(v, hi, factor)| ==>
      MulValues(v, hi, factor)[k] == v * Power(factor, k) <= hi
    ensures v * Power(factor, |MulValues(v, hi, factor)|) > hi
  {
    forall k | 0 <= k < |MulValues(v, hi, factor)|
      ensures MulValues(v, hi, factor)[k] == v * Power(factor, k) <= hi
    {
      MulValuesAt(v, hi, factor, k);
    }
    MulValuesEnd(v, hi, factor);
  }

  lemma {:induction false} MulValuesAt(v: real, hi: real, factor: real, k: nat)
    requires v > 0.0 && factor > 1.0 && k < |MulValues(v, hi, factor)|
    ensures MulValues(v, hi, factor)[k] == v * Power(factor, k) <= hi
    decreases k
  {
    assert v <= hi;
    MulValuesStep(v, hi, factor);
    if k > 0 {
      MulValuesAt(v * factor, hi, factor, k - 1);
      PowerShift(v, factor, k - 1);
    }
  }

  /** One step of a multiplicative walk that has not passed `hi`. */
  lemma MulValuesStep(v: real, hi: real, factor: real)
    requires v > 0.0 && factor > 1.0 && v <= hi
    ensures v * factor > 0.0
    ensures MulValues(v, hi, factor) == [v] + MulValues(v * factor, hi, factor)
  {
    MulShrink(v, hi, factor);
  }

  lemma {:induction false} MulValuesEnd(v: real, hi: real, factor: real)
    requires v > 0.0 && factor > 1.0
    ensures v * Power(factor, |MulValues(v, hi, factor)|) > hi
    decreases MulStepsLeft(v, hi, factor)
  {
    if v <= hi {
      MulShrink(v, hi, factor);
      var rest := MulValues(v * factor, hi, factor);
      assert |MulValues(v, hi, factor)| == |rest| + 1;
      MulValuesEnd(v * factor, hi, factor);
      PowerShift(v, factor, |rest|);
    }
  }

  /** The walk of one parameter (the inner `while` of a sweep). */
  method WalkAxis(a: Axis) returns (values: seq<real>)
    requires AxisEnds(a)
    ensures values == AxisValues(a)
  {
    if a.lo > a.hi {
      values := [];
    } else if a.Additive? {
      values := WalkAdditive(a.lo, a.hi, a.step);
    } else {
      values := WalkMultiplicative(a.lo, a.hi, a.factor);
    }
  }

  /** `v = lo; while v <= hi: …; v += step`. */
  method WalkAdditive(lo: real, hi: real, step: real) returns (values: seq<real>)
    requires step > 0.0
    ensures values == AddValues(lo, hi, step)
  {
    values := [];
    var v := lo;
    while v <= hi
      invariant values + AddValues(v, hi, step) == AddValues(lo, hi, step)
      decreases StepsLeft(v, hi, step)
    {
      StepsShrink(v, hi, step, v + step);
      assert AddValues(v, hi, step) == [v] + AddValues(v + step, hi, step);
      values := values + [v];
      v := v + step;
    }
    assert values + [] == values;
  }

  /** `v = lo; while v <= hi: …; v *= factor`. */
  method WalkMultiplicative(lo: real, hi: real, factor: real) returns (values: seq<real>)
    requires lo > 0.0 && factor > 1.0
    ensures values == MulValues(lo, hi, factor)
  {
    values := [];
    var v := lo;
    while v <= hi
      invariant v > 0.0
      invariant values + MulValues(v, hi, factor) == MulValues(lo, hi, factor)
      decreases MulStepsLeft(v, hi, factor)
    {
      MulShrink(v, hi, factor);
      assert MulValues(v, hi, factor) == [v] + MulValues(v * factor, hi, factor);
      values := values + [v];
      v := v * factor;
    }
    assert values + [] == values;
  }

  /** Every value of `vs` paired, outermost, with every point of `ps`. */
  function Combine(vs: seq<real>, ps: seq<seq<real>>): (r: seq<seq<real>>)
    ensures |r| == |vs| * |ps|
  {
    if vs == [] then []
    else Combine(vs[..|vs| - 1], ps) + Prefix(vs[|vs| - 1], ps)
  }

  function Prefix(v: real, ps: seq<seq<real>>): (r: seq<seq<real>>)
    ensures |r| == |ps| && forall j :: 0 <= j < |ps| ==> r[j] == [v] + ps[j]
  {
    seq(|ps|, j requires 0 <= j < |ps| => [v] + ps[j])
  }

  /** The grid points of a sweep, the first parameter outermost. */
  function Grid(axes: seq<Axis>): seq<seq<real>>
    requires forall k :: 0 <= k < |axes| ==> AxisEnds(axes[k])
  {
    if axes == [] then [[]] else Combine(AxisValues(axes[0]), Grid(axes[1..]))
  }

  /** Point `i * |ps| + j` pairs the `i`-th outer value with the `j`-th inner
      point: the inner parameters start again from their minimum for every
      outer value. */
  lemma {:induction false} CombineAt(vs: seq<real>, ps: seq<seq<real>>, i: nat, j: nat)
    requires i < |vs| && j < |ps|
    ensures i * |ps| + j < |vs| * |ps|
    ensures Combine(vs, ps)[i * |ps| + j] == [vs[i]] + ps[j]
  {
    var init := vs[..|vs| - 1];
    var n := |ps|;
    assert |init| * n + n == |vs| * n;
    if i < |init| {
      CombineAt(init, ps, i, j);
      assert i * n + j < |init| * n;
    } else {
      assert i * n == |init| * n;
    }
  }

  /** A grid point has a value of every parameter's walk, in order. */
  lemma {:induction false} GridPoints(axes: seq<Axis>, p: seq<real>)
    requires forall k :: 0 <= k < |axes| ==> AxisEnds(axes[k])
    requires p in Grid(axes)
    ensures |p| == |axes| && forall k :: 0 <= k < |axes| ==> p[k] in AxisValues(axes[k])
  {
    if axes != [] {
      var vs, rest := AxisValues(axes[0]), Grid(axes[1..]);
      var i, j := CombineMember(vs, rest, p);
      GridPoints(axes[1..], rest[j]);
      forall k | 0 <= k < |axes|
        ensures p[k] in AxisValues(axes[k])
      {
        if k == 0 {
          assert p[0] == vs[i];
        } else {
          assert rest[j][k - 1] in AxisValues(axes[1..][k - 1]);
          assert p[k] == rest[j][k - 1] && axes[k] == axes[1..][k - 1];
        }
      }
    }
  }

  lemma CombineIndex(vs: seq<real>, ps: seq<seq<real>>, m: nat) returns (i: nat, j: nat)
    requires m < |vs| * |ps|
    ensures i < |vs| && j < |ps| && m == i * |ps| + j
  {
    i, j := m / |ps|, m % |ps|;
  }

  /** Every point of a combination is an outer value followed by an inner
      point. */
  lemma CombineMember(vs: seq<real>, ps: seq<seq<real>>, p: seq<real>) returns (i: nat, j: nat)
    requires p in Combine(vs, ps)
    ensures i < |vs| && j < |ps| && p == [vs[i]] + ps[j]
  {
    var m :| 0 <= m < |Combine(vs, ps)| && Combine(vs, ps)[m] == p;
    i, j := CombineIndex(vs, ps, m);
    CombineAt(vs, ps, i, j);
  }

  /** `layerTuple`: `numLayers` copies of the layer size
      (src/nntest.py:230-232). */
  method LayerTuple(numLayers: int, layerCurrent: int) returns (layerTuple: seq<int>)
    ensures |layerTuple| == if numLayers < 0 then 0 else numLayers
    ensures forall k :: 0 <= k < |layerTuple| ==> layerTuple[k] == layerCurrent
  {
    layerTuple := [];
    var x := 0;
    while x < numLayers
      invariant |layerTuple| == x && 0 <= x <= (if numLayers < 0 then 0 else numLayers)
      invariant forall k :: 0 <= k < |layerTuple| ==> layerTuple[k] == layerCurrent
    {
      layerTuple := layerTuple + [layerCurrent];
      x := x + 1;
    }
  }

  /** The nested walks of all parameters: for every value of the first, the
      whole grid of the others, walked again from their minimum. */
  method WalkGrid(axes: seq<Axis>) returns (points: seq<seq<real>>)
    requires forall k :: 0 <= k < |axes| ==> AxisEnds(axes[k])
    ensures points == Grid(axes)
    decreases |axes|
  {
    if axes == [] {
      return [[]];
    }
    var values := WalkAxis(axes[0]);
    points := [];
    for i := 0 to |values|
      invariant points == Combine(values[..i], Grid(axes[1..]))
    {
      var inner := WalkGrid(axes[1..]);
      points := AppendPrefixed(points, values[i], inner);
      assert values[..i + 1][..i] == values[..i];
    }
    assert values[..|values|] == values;
  }

  /** The inner loop of the walk: every point of `inner`, prefixed with `v`,
      appended to `points`. */
  method AppendPrefixed(points: seq<seq<real>>, v: real, inner: seq<seq<real>>) returns (r: seq<seq<real>>)
    ensures r == points + Prefix(v, inner)
  {
    r := points;
    for j := 0 to |inner|
      invariant r == points + Prefix(v, inner[..j])
    {
      assert Prefix(v, inner[..j + 1]) == Prefix(v, inner[..j]) + [[v] + inner[j]];
      r := r + [[v] + inner[j]];
    }
    assert inner[..|inner|] == inner;
  }
}
