/** `generate_new_point`: a proposal offset from the best point along a
    Gaussian direction, scaled per dimension by the radii. The Gaussian draws
    and their Euclidean norm come from the random number generator and
    `math.sqrt`, so they are inputs here. */
module Sampler {
  import opened Wrappers
  import opened Floats
  import opened PointSet

  /** The random input of one proposal: the `d` draws of
      `random.gauss(0, 1)` and `sqrt(sum(x ** 2))` of them. */
  datatype Draw = Draw(delta: seq<real>, norm: real)

  /** Coordinate `i` of the proposal: `point[i + 1] + delta[i] / norm * radii[i]`. */
  function MovedCoord(point: Point, radii: seq<real>, draw: Draw, i: nat): Ext
    requires |draw.delta| == |point.coords| <= |radii| && i < |point.coords|
    requires draw.norm != 0.0
  {
    AddReal(point.coords[i], draw.delta[i] / draw.norm * radii[i])
  }

  /** The coordinates of the new point; its score slot is left unset.
      `None` is the `ZeroDivisionError` of dividing by a zero norm. */
  function GenerateNewPoint(point: Point, radii: seq<real>, draw: Draw): (r: Option<seq<Ext>>)
    requires |draw.delta| == |point.coords| <= |radii|
    ensures r.None? <==> draw.norm == 0.0 && |draw.delta| > 0
    ensures r.Some? ==> |r.value| == |point.coords|
    ensures r.Some? ==> forall i :: 0 <= i < |point.coords| ==>
                          r.value[i] == AddReal(point.coords[i], draw.delta[i] / draw.norm * radii[i])
  {
    if |draw.delta| > 0 && draw.norm == 0.0 then None
    else
      Some(seq(|point.coords|, i requires 0 <= i < |point.coords| => MovedCoord(point, radii, draw, i)))
  }

  /** The sum of squares of a vector. */
  function SumSq(v: seq<real>): real
    decreases |v|
  {
    if v == [] then 0.0 else SumSq(v[..|v| - 1]) + v[|v| - 1] * v[|v| - 1]
  }

  /** The offset from `from` to `to`, each axis divided by its radius: the
      offset in the space where the exploration ellipsoid is a sphere. */
  function ScaledOffset(from: seq<Ext>, to: seq<Ext>, radii: seq<real>): seq<real>
    requires |from| == |to| <= |radii|
    requires forall i :: 0 <= i < |from| ==> from[i].Fin? && to[i].Fin? && radii[i] != 0.0
  {
    seq(|from|, i requires 0 <= i < |from| => (to[i].r - from[i].r) / radii[i])
  }

  /** Each entry of `v` divided by `n`. */
  function Divided(v: seq<real>, n: real): (w: seq<real>)
    requires n != 0.0
    ensures |w| == |v| && forall i :: 0 <= i < |v| ==> w[i] == v[i] / n
  {
    seq(|v|, i requires 0 <= i < |v| => v[i] / n)
  }

  lemma {:induction false} SumSqDivided(v: seq<real>, n: real)
    requires n != 0.0
    ensures SumSq(Divided(v, n)) * (n * n) == SumSq(v)
    decreases |v|
  {
    var w := Divided(v, n);
    if v != [] {
      var v' := v[..|v| - 1];
      SumSqDivided(v', n);
      assert w[..|w| - 1] == Divided(v', n);
      var x := v[|v| - 1];
      ScaleSquareStep(SumSq(Divided(v', n)), x, n);
    }
  }

  /** One step of the induction above: adding `(x / n)^2` to a sum `a`
      scaled by `n^2` adds `x^2`. */
  lemma ScaleSquareStep(a: real, x: real, n: real)
    requires n != 0.0
    ensures (a + (x / n) * (x / n)) * (n * n) == a * (n * n) + x * x
  {
  }

  lemma MulDivCancel(a: real, r: real)
    requires r != 0.0
    ensures a * r / r == a
  {
  }

  lemma UnitFromSquares(x: real, n: real, total: real)
    requires n != 0.0 && x * (n * n) == total && n * n == total
    ensures x == 1.0
  {
    MulDivCancel(n, n);
    assert total != 0.0;
    assert (x - 1.0) * total == 0.0;
  }

  /** Divided by the radii, the offset of the proposal is the draws divided
      by their norm. */
  lemma ScaledOffsetIsDirection(point: Point, radii: seq<real>, draw: Draw)
    requires |draw.delta| == |point.coords| <= |radii|
    requires forall i :: 0 <= i < |point.coords| ==> point.coords[i].Fin? && radii[i] != 0.0
    requires draw.norm != 0.0
    ensures GenerateNewPoint(point, radii, draw).Some?
    ensures forall i :: 0 <= i < |point.coords| ==> GenerateNewPoint(point, radii, draw).value[i].Fin?
    ensures ScaledOffset(point.coords, GenerateNewPoint(point, radii, draw).value, radii)
         == Divided(draw.delta, draw.norm)
  {
    var q := GenerateNewPoint(point, radii, draw).value;
    var d := draw.delta;
    forall i | 0 <= i < |d|
      ensures ScaledOffset(point.coords, q, radii)[i] == d[i] / draw.norm
    {
      MulDivCancel(d[i] / draw.norm, radii[i]);
    }
  }

  /** From a point with finite coordinates, with non-zero radii and a
      non-zero norm that is the Euclidean norm of the draws, the proposal has
      finite coordinates and its radius-scaled offset has unit length: it
      lies on the exploration ellipsoid around the point. */
  lemma ProposalOnScaledSphere(point: Point, radii: seq<real>, draw: Draw)
    requires |draw.delta| == |point.coords| <= |radii|
    requires forall i :: 0 <= i < |point.coords| ==> point.coords[i].Fin? && radii[i] != 0.0
    requires draw.norm != 0.0 && draw.norm * draw.norm == SumSq(draw.delta)
    ensures GenerateNewPoint(point, radii, draw).Some?
    ensures forall i :: 0 <= i < |point.coords| ==> GenerateNewPoint(point, radii, draw).value[i].Fin?
    ensures SumSq(ScaledOffset(point.coords, GenerateNewPoint(point, radii, draw).value, radii)) == 1.0
  {
    ScaledOffsetIsDirection(point, radii, draw);
    SumSqDivided(draw.delta, draw.norm);
    var x := SumSq(ScaledOffset(point.coords, GenerateNewPoint(point, radii, draw).value, radii));
    var n := draw.norm;
    assert x == SumSq(Divided(draw.delta, n));
    UnitFromSquares(x, n, SumSq(draw.delta));
  }
}
