/**
 * Homogeneous 4x4 poses and the few geometric quantities the scripts derive from them.
 * The library numerics (square root, arccos, Euler-angle conversion) are given as
 * function values; only the guards around them are modelled.
 */
module Geometry {
  import opened Numeric

  /** One row of a 4x4 matrix. */
  datatype Row4 = Row4(c0: real, c1: real, c2: real, c3: real)
  {
    function Entries(): seq<real>
    {
      [c0, c1, c2, c3]
    }
  }

  /** A 4x4 homogeneous transform, by rows; rows 0-2 hold rotation and translation. */
  datatype Matrix4 = Matrix4(r0: Row4, r1: Row4, r2: Row4, r3: Row4)
  {
    function Rows(): seq<Row4>
    {
      [r0, r1, r2, r3]
    }
  }

  datatype Vec3 = Vec3(x: real, y: real, z: real)

  /**
   * `np.sqrt`, `np.arccos(.) * 180 / np.pi` and
   * `Rotation.from_matrix(.).as_euler('xyz', degrees=True)`, as supplied by the libraries.
   */
  datatype Numerics = Numerics(sqrt: real -> real, arccosDeg: real -> real, eulerXyzDeg: Matrix4 -> Vec3)

  /** `pose[:3, 3]` */
  function Translation(m: Matrix4): Vec3
  {
    Vec3(m.r0.c3, m.r1.c3, m.r2.c3)
  }

  function Minus(a: Vec3, b: Vec3): Vec3
  {
    Vec3(a.x - b.x, a.y - b.y, a.z - b.z)
  }

  function SquaredLength(v: Vec3): (r: real)
    ensures r >= 0.0
  {
    SquareNonNegative(v.x);
    SquareNonNegative(v.y);
    SquareNonNegative(v.z);
    v.x * v.x + v.y * v.y + v.z * v.z
  }

  /** `np.linalg.norm` of a 3-vector. */
  function Norm(v: Vec3, num: Numerics): real
  {
    num.sqrt(SquaredLength(v))
  }

  /** The distance between two points does not depend on their order. */
  lemma NormOfDifferenceSymmetric(a: Vec3, b: Vec3, num: Numerics)
    ensures Norm(Minus(a, b), num) == Norm(Minus(b, a), num)
  {
    assert SquaredLength(Minus(a, b)) == SquaredLength(Minus(b, a));
  }

  /** Two equal points are `sqrt(0)` apart. */
  lemma NormOfNoDifference(a: Vec3, b: Vec3, num: Numerics)
    requires a == b
    ensures Norm(Minus(a, b), num) == num.sqrt(0.0)
  {
    assert Minus(a, b) == Vec3(0.0, 0.0, 0.0);
  }

  /** The product of the rotation parts of two matching rows. */
  function RowDot(a: Row4, b: Row4): real
  {
    a.c0 * b.c0 + a.c1 * b.c1 + a.c2 * b.c2
  }

  /** `np.trace(A[:3, :3] @ B[:3, :3].T)`: the sum of the products of matching rotation entries. */
  function RotationTrace(a: Matrix4, b: Matrix4): real
  {
    RowDot(a.r0, b.r0) + RowDot(a.r1, b.r1) + RowDot(a.r2, b.r2)
  }

  /** `np.clip(trace, -1, 3)` */
  function ClampTrace(t: real): (r: real)
    ensures -1.0 <= r <= 3.0
    ensures -1.0 <= t <= 3.0 ==> r == t
    ensures t < -1.0 ==> r == -1.0
    ensures t > 3.0 ==> r == 3.0
  {
    if t < -1.0 then -1.0 else if t > 3.0 then 3.0 else t
  }

  /** The argument handed to `arccos`, `(clip(trace) - 1) / 2`, is always in its domain [-1, 1]. */
  function ArccosArgument(trace: real): (r: real)
    ensures -1.0 <= r <= 1.0
    ensures 2.0 * r + 1.0 == ClampTrace(trace)
  {
    (ClampTrace(trace) - 1.0) / 2.0
  }

  /** The rotation angle between the rotation parts of two poses, in degrees. */
  function RotationAngle(a: Matrix4, b: Matrix4, num: Numerics): real
  {
    num.arccosDeg(ArccosArgument(RotationTrace(a, b)))
  }

  lemma RotationAngleSymmetric(a: Matrix4, b: Matrix4, num: Numerics)
    ensures RotationAngle(a, b, num) == RotationAngle(b, a, num)
  {
  }

  /** `transform_pts`: rotate a model point by the pose and add its translation. */
  function TransformPoint(m: Matrix4, p: Vec3): Vec3
  {
    Vec3(m.r0.c0 * p.x + m.r0.c1 * p.y + m.r0.c2 * p.z + m.r0.c3,
         m.r1.c0 * p.x + m.r1.c1 * p.y + m.r1.c2 * p.z + m.r1.c3,
         m.r2.c0 * p.x + m.r2.c1 * p.y + m.r2.c2 * p.z + m.r2.c3)
  }

  /** Columns of a sequence of vectors, as `array[:, k]`. */
  function Xs(vs: seq<Vec3>): (r: seq<real>)
    ensures |r| == |vs| && forall k :: 0 <= k < |vs| ==> r[k] == vs[k].x
  {
    if |vs| == 0 then [] else Xs(vs[..|vs| - 1]) + [vs[|vs| - 1].x]
  }

  function Ys(vs: seq<Vec3>): (r: seq<real>)
    ensures |r| == |vs| && forall k :: 0 <= k < |vs| ==> r[k] == vs[k].y
  {
    if |vs| == 0 then [] else Ys(vs[..|vs| - 1]) + [vs[|vs| - 1].y]
  }

  function Zs(vs: seq<Vec3>): (r: seq<real>)
    ensures |r| == |vs| && forall k :: 0 <= k < |vs| ==> r[k] == vs[k].z
  {
    if |vs| == 0 then [] else Zs(vs[..|vs| - 1]) + [vs[|vs| - 1].z]
  }

  /** `np.var(vectors, axis=0).mean()`: the mean of the three per-axis population variances. */
  function MeanAxisVariance(vs: seq<Vec3>): (r: real)
    requires |vs| > 0
    ensures r >= 0.0
  {
    VarianceNonNegative(Xs(vs));
    VarianceNonNegative(Ys(vs));
    VarianceNonNegative(Zs(vs));
    (Variance(Xs(vs)) + Variance(Ys(vs)) + Variance(Zs(vs))) / 3.0
  }

  /** Vectors that never change have no spread on any axis. */
  lemma MeanAxisVarianceOfConstant(vs: seq<Vec3>, v: Vec3)
    requires |vs| > 0 && forall k :: 0 <= k < |vs| ==> vs[k] == v
    ensures MeanAxisVariance(vs) == 0.0
  {
    VarianceOfConstant(Xs(vs), v.x);
    VarianceOfConstant(Ys(vs), v.y);
    VarianceOfConstant(Zs(vs), v.z);
  }
}
