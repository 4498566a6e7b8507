/**
 * The axis-angle rotation of autofunc/coo3d.py, over exact reals.
 *
 * The backend's `norm`, `cos` and `sin` results enter as inputs: the norm
 * of the axis, and the cosine and sine of half the angle. Each is
 * constrained only by its defining square identity.
 */
module Coo3d {

  datatype Vec3 = Vec3(x: real, y: real, z: real)

  /** A 3x3 matrix by rows. */
  datatype Mat3 = Mat3(r0: Vec3, r1: Vec3, r2: Vec3)

  datatype Quaternion = Quaternion(a: real, b: real, c: real, d: real)

  function Dot(u: Vec3, v: Vec3): real
  {
    u.x * v.x + u.y * v.y + u.z * v.z
  }

  function Scale(k: real, v: Vec3): Vec3
  {
    Vec3(k * v.x, k * v.y, k * v.z)
  }

  function Col0(m: Mat3): Vec3 { Vec3(m.r0.x, m.r1.x, m.r2.x) }
  function Col1(m: Mat3): Vec3 { Vec3(m.r0.y, m.r1.y, m.r2.y) }
  function Col2(m: Mat3): Vec3 { Vec3(m.r0.z, m.r1.z, m.r2.z) }

  function Transpose(m: Mat3): Mat3
  {
    Mat3(Col0(m), Col1(m), Col2(m))
  }

  /** The row vector v times m, as `xyz @ rot` computes for one row. */
  function RowTimes(v: Vec3, m: Mat3): Vec3
  {
    Vec3(Dot(v, Col0(m)), Dot(v, Col1(m)), Dot(v, Col2(m)))
  }

  function MatMul(m: Mat3, n: Mat3): Mat3
  {
    Mat3(RowTimes(m.r0, n), RowTimes(m.r1, n), RowTimes(m.r2, n))
  }

  const Identity: Mat3 := Mat3(Vec3(1.0, 0.0, 0.0), Vec3(0.0, 1.0, 0.0), Vec3(0.0, 0.0, 1.0))

  function SumOfSquares(q: Quaternion): real
  {
    SquareSum(q.a, q.b, q.c, q.d)
  }

  function SquareSum(a: real, b: real, c: real, d: real): real
  {
    a * a + b * b + c * c + d * d
  }

  predicate IsUnit(q: Quaternion)
  {
    SumOfSquares(q) == 1.0
  }

  /**
   * coo3d.py:57-60: the axis divided by its norm, then
   * a = cos(angle/2) and (b, c, d) = -n sin(angle/2).
   */
  function AxisAngle(axis: Vec3, norm: real, cosHalf: real, sinHalf: real): (q: Quaternion)
    requires 0.0 < norm && norm * norm == Dot(axis, axis)
    ensures cosHalf * cosHalf + sinHalf * sinHalf == 1.0 ==> IsUnit(q)
    ensures q.a == cosHalf && Scale(norm, Vec3(q.b, q.c, q.d)) == Scale(-sinHalf, axis)
  {
    var n := Vec3(axis.x / norm, axis.y / norm, axis.z / norm);
    UnitAfterNormalising(axis, norm);
    Quaternion(cosHalf, -n.x * sinHalf, -n.y * sinHalf, -n.z * sinHalf)
  }

  lemma UnitAfterNormalising(axis: Vec3, norm: real)
    requires 0.0 < norm && norm * norm == Dot(axis, axis)
    ensures var n := Vec3(axis.x / norm, axis.y / norm, axis.z / norm);
      Dot(n, n) == 1.0 && Scale(norm, n) == axis
  {
    var n := Vec3(axis.x / norm, axis.y / norm, axis.z / norm);
    var k := 1.0 / norm;
    assert n == Scale(k, axis);
    UnitScaled(k, norm, axis);
  }

  /** Scaling v by the reciprocal of its length gives a unit vector. */
  lemma UnitScaled(k: real, p: real, v: Vec3)
    requires k * p == 1.0 && p * p == Dot(v, v)
    ensures Dot(Scale(k, v), Scale(k, v)) == 1.0
  {
    var x, y, z := v.x, v.y, v.z;
    assert (k * x) * (k * x) + (k * y) * (k * y) + (k * z) * (k * z) == (k * k) * (x * x + y * y + z * z);
    assert (k * k) * (x * x + y * y + z * z) == (k * k) * (p * p);
    assert (k * k) * (p * p) == (k * p) * (k * p);
  }

  /** coo3d.py:61-70: the quaternion-to-matrix formula, before the transpose. */
  function QuatMatrix(q: Quaternion): Mat3
  {
    MatrixOf(q.a, q.b, q.c, q.d)
  }

  function MatrixOf(a: real, b: real, c: real, d: real): Mat3
  {
    Mat3(Vec3(a * a + b * b - c * c - d * d, 2.0 * (b * c + a * d), 2.0 * (b * d - a * c)),
         Vec3(2.0 * (b * c - a * d), a * a + c * c - b * b - d * d, 2.0 * (c * d + a * b)),
         Vec3(2.0 * (b * d + a * c), 2.0 * (c * d - a * b), a * a + d * d - b * b - c * c))
  }

  /** A constructed `Rotation`: the stored `_rot`. */
  datatype Rotation = Rotation(rot: Mat3)

  /** `Rotation(axis, angle)`: `_rot` is the transpose of the quaternion matrix. */
  function NewRotation(axis: Vec3, norm: real, cosHalf: real, sinHalf: real): (r: Rotation)
    requires 0.0 < norm && norm * norm == Dot(axis, axis)
    ensures Transpose(r.rot) == QuatMatrix(AxisAngle(axis, norm, cosHalf, sinHalf))
  {
    Rotation(Transpose(QuatMatrix(AxisAngle(axis, norm, cosHalf, sinHalf))))
  }

  /** coo3d.py:56-71: the stored matrix is orthogonal: its transpose is its inverse. */
  lemma RotationOrthogonal(axis: Vec3, norm: real, cosHalf: real, sinHalf: real)
    requires 0.0 < norm && norm * norm == Dot(axis, axis)
    requires cosHalf * cosHalf + sinHalf * sinHalf == 1.0
    ensures var rot := NewRotation(axis, norm, cosHalf, sinHalf).rot;
      MatMul(Transpose(rot), rot) == Identity && MatMul(rot, Transpose(rot)) == Identity
  {
    var q := AxisAngle(axis, norm, cosHalf, sinHalf);
    RowsOrthonormal(q);
    ColumnsOrthonormal(q);
    assert Transpose(Transpose(QuatMatrix(q))) == QuatMatrix(q);
  }

  /** `rot(xyz)`: every row v becomes v @ `_rot`; the number of rows is kept. */
  function Apply(r: Rotation, xyz: seq<Vec3>): (out: seq<Vec3>)
    ensures |out| == |xyz|
    ensures forall i :: 0 <= i < |xyz| ==> out[i] == RowTimes(xyz[i], r.rot)
  {
    if xyz == [] then [] else [RowTimes(xyz[0], r.rot)] + Apply(r, xyz[1..])
  }

  /** |v m|^2 expanded over the dot products between the rows of m. */
  lemma GramExpansion(v: Vec3, m: Mat3)
    ensures Dot(RowTimes(v, m), RowTimes(v, m)) ==
      (v.x * v.x) * Dot(m.r0, m.r0) + (v.y * v.y) * Dot(m.r1, m.r1) + (v.z * v.z) * Dot(m.r2, m.r2) +
      2.0 * (v.x * v.y) * Dot(m.r0, m.r1) + 2.0 * (v.x * v.z) * Dot(m.r0, m.r2) + 2.0 * (v.y * v.z) * Dot(m.r1, m.r2)
  {
  }

  /** A matrix whose product with its transpose is the identity keeps the length of every row vector. */
  lemma LengthKept(v: Vec3, m: Mat3)
    requires MatMul(m, Transpose(m)) == Identity
    ensures Dot(RowTimes(v, m), RowTimes(v, m)) == Dot(v, v)
  {
    var t := Transpose(m);
    assert Col0(t) == m.r0 && Col1(t) == m.r1 && Col2(t) == m.r2;
    assert Dot(m.r0, m.r0) == 1.0 && Dot(m.r1, m.r1) == 1.0 && Dot(m.r2, m.r2) == 1.0;
    assert Dot(m.r0, m.r1) == 0.0 && Dot(m.r0, m.r2) == 0.0 && Dot(m.r1, m.r2) == 0.0;
    GramExpansion(v, m);
  }

  /** coo3d.py:56-74: applying the rotation keeps the length of every point. */
  lemma ApplyKeepsLengths(axis: Vec3, norm: real, cosHalf: real, sinHalf: real, xyz: seq<Vec3>)
    requires 0.0 < norm && norm * norm == Dot(axis, axis)
    requires cosHalf * cosHalf + sinHalf * sinHalf == 1.0
    ensures var out := Apply(NewRotation(axis, norm, cosHalf, sinHalf), xyz);
      forall i :: 0 <= i < |xyz| ==> Dot(out[i], out[i]) == Dot(xyz[i], xyz[i])
  {
    var r := NewRotation(axis, norm, cosHalf, sinHalf);
    RotationOrthogonal(axis, norm, cosHalf, sinHalf);
    forall i | 0 <= i < |xyz|
      ensures Dot(Apply(r, xyz)[i], Apply(r, xyz)[i]) == Dot(xyz[i], xyz[i])
    {
      LengthKept(xyz[i], r.rot);
    }
  }

  // The dot products between rows and between columns of the quaternion
  // matrix. Each is a polynomial identity in a, b, c, d, proved on its own
  // over the entries it involves, named as variables, then applied to the
  // matrix.

  // The off-diagonal squares of one row or column sum to a product of two
  // sums of squares (the two-square identity of Brahmagupta and Fibonacci).

  lemma RowCross0(a: real, b: real, c: real, d: real)
    ensures (b * c + a * d) * (b * c + a * d) + (b * d - a * c) * (b * d - a * c) == (a * a + b * b) * (c * c + d * d)
  {
  }

  lemma RowCross1(a: real, b: real, c: real, d: real)
    ensures (b * c - a * d) * (b * c - a * d) + (c * d + a * b) * (c * d + a * b) == (a * a + c * c) * (b * b + d * d)
  {
  }

  lemma RowCross2(a: real, b: real, c: real, d: real)
    ensures (b * d + a * c) * (b * d + a * c) + (c * d - a * b) * (c * d - a * b) == (a * a + d * d) * (b * b + c * c)
  {
  }

  lemma ColCross0(a: real, b: real, c: real, d: real)
    ensures (b * c - a * d) * (b * c - a * d) + (b * d + a * c) * (b * d + a * c) == (a * a + b * b) * (c * c + d * d)
  {
  }

  lemma ColCross1(a: real, b: real, c: real, d: real)
    ensures (b * c + a * d) * (b * c + a * d) + (c * d - a * b) * (c * d - a * b) == (a * a + c * c) * (b * b + d * d)
  {
  }

  lemma ColCross2(a: real, b: real, c: real, d: real)
    ensures (b * d - a * c) * (b * d - a * c) + (c * d + a * b) * (c * d + a * b) == (a * a + d * d) * (b * b + c * c)
  {
  }

  /** A diagonal entry of the product: (p - q)^2 + 4pq == (p + q)^2. */
  lemma DiagonalSum(p: real, q: real, s: real, g: real, h: real, e: real, u: real, v: real)
    requires e == p - q
    requires s == p + q
    requires u == 2.0 * g
    requires v == 2.0 * h
    requires g * g + h * h == p * q
    ensures e * e + u * u + v * v == s * s
  {
    assert u * u + v * v == 4.0 * (g * g + h * h);
  }

  lemma RowIdentity00(a: real, b: real, c: real, d: real, u: Vec3, s: real)
    requires u.x == a * a + b * b - c * c - d * d
    requires u.y == 2.0 * (b * c + a * d)
    requires u.z == 2.0 * (b * d - a * c)
    requires s == a * a + b * b + c * c + d * d
    ensures Dot(u, u) == s * s
  {
    RowCross0(a, b, c, d);
    DiagonalSum(a * a + b * b, c * c + d * d, s, b * c + a * d, b * d - a * c, u.x, u.y, u.z);
  }

  lemma RowPair00(a: real, b: real, c: real, d: real)
    ensures var m := MatrixOf(a, b, c, d);
      Dot(m.r0, m.r0) == SquareSum(a, b, c, d) * SquareSum(a, b, c, d)
  {
    var m := MatrixOf(a, b, c, d);
    RowIdentity00(a, b, c, d, m.r0, SquareSum(a, b, c, d));
  }

  lemma RowDot00(q: Quaternion)
    ensures var m := QuatMatrix(q);
      Dot(m.r0, m.r0) == SumOfSquares(q) * SumOfSquares(q)
  {
    RowPair00(q.a, q.b, q.c, q.d);
  }

  lemma RowIdentity01(a: real, b: real, c: real, d: real, u: Vec3, v: Vec3)
    requires u.x == a * a + b * b - c * c - d * d
    requires u.y == 2.0 * (b * c + a * d)
    requires u.z == 2.0 * (b * d - a * c)
    requires v.x == 2.0 * (b * c - a * d)
    requires v.y == a * a + c * c - b * b - d * d
    requires v.z == 2.0 * (c * d + a * b)
    ensures Dot(u, v) == 0.0
  {
  }

  lemma RowPair01(a: real, b: real, c: real, d: real)
    ensures var m := MatrixOf(a, b, c, d);
      Dot(m.r0, m.r1) == 0.0
  {
    var m := MatrixOf(a, b, c, d);
    RowIdentity01(a, b, c, d, m.r0, m.r1);
  }

  lemma RowDot01(q: Quaternion)
    ensures var m := QuatMatrix(q);
      Dot(m.r0, m.r1) == 0.0
  {
    RowPair01(q.a, q.b, q.c, q.d);
  }

  lemma RowIdentity02(a: real, b: real, c: real, d: real, u: Vec3, v: Vec3)
    requires u.x == a * a + b * b - c * c - d * d
    requires u.y == 2.0 * (b * c + a * d)
    requires u.z == 2.0 * (b * d - a * c)
    requires v.x == 2.0 * (b * d + a * c)
    requires v.y == 2.0 * (c * d - a * b)
    requires v.z == a * a + d * d - b * b - c * c
    ensures Dot(u, v) == 0.0
  {
  }

  lemma RowPair02(a: real, b: real, c: real, d: real)
    ensures var m := MatrixOf(a, b, c, d);
      Dot(m.r0, m.r2) == 0.0
  {
    var m := MatrixOf(a, b, c, d);
    RowIdentity02(a, b, c, d, m.r0, m.r2);
  }

  lemma RowDot02(q: Quaternion)
    ensures var m := QuatMatrix(q);
      Dot(m.r0, m.r2) == 0.0
  {
    RowPair02(q.a, q.b, q.c, q.d);
  }

  lemma RowIdentity11(a: real, b: real, c: real, d: real, u: Vec3, s: real)
    requires u.x == 2.0 * (b * c - a * d)
    requires u.y == a * a + c * c - b * b - d * d
    requires u.z == 2.0 * (c * d + a * b)
    requires s == a * a + b * b + c * c + d * d
    ensures Dot(u, u) == s * s
  {
    RowCross1(a, b, c, d);
    DiagonalSum(a * a + c * c, b * b + d * d, s, b * c - a * d, c * d + a * b, u.y, u.x, u.z);
  }

  lemma RowPair11(a: real, b: real, c: real, d: real)
    ensures var m := MatrixOf(a, b, c, d);
      Dot(m.r1, m.r1) == SquareSum(a, b, c, d) * SquareSum(a, b, c, d)
  {
    var m := MatrixOf(a, b, c, d);
    RowIdentity11(a, b, c, d, m.r1, SquareSum(a, b, c, d));
  }

  lemma RowDot11(q: Quaternion)
    ensures var m := QuatMatrix(q);
      Dot(m.r1, m.r1) == SumOfSquares(q) * SumOfSquares(q)
  {
    RowPair11(q.a, q.b, q.c, q.d);
  }

  lemma RowIdentity12(a: real, b: real, c: real, d: real, u: Vec3, v: Vec3)
    requires u.x == 2.0 * (b * c - a * d)
    requires u.y == a * a + c * c - b * b - d * d
    requires u.z == 2.0 * (c * d + a * b)
    requires v.x == 2.0 * (b * d + a * c)
    requires v.y == 2.0 * (c * d - a * b)
    requires v.z == a * a + d * d - b * b - c * c
    ensures Dot(u, v) == 0.0
  {
  }

  lemma RowPair12(a: real, b: real, c: real, d: real)
    ensures var m := MatrixOf(a, b, c, d);
      Dot(m.r1, m.r2) == 0.0
  {
    var m := MatrixOf(a, b, c, d);
    RowIdentity12(a, b, c, d, m.r1, m.r2);
  }

  lemma RowDot12(q: Quaternion)
    ensures var m := QuatMatrix(q);
      Dot(m.r1, m.r2) == 0.0
  {
    RowPair12(q.a, q.b, q.c, q.d);
  }

  lemma RowIdentity22(a: real, b: real, c: real, d: real, u: Vec3, s: real)
    requires u.x == 2.0 * (b * d + a * c)
    requires u.y == 2.0 * (c * d - a * b)
    requires u.z == a * a + d * d - b * b - c * c
    requires s == a * a + b * b + c * c + d * d
    ensures Dot(u, u) == s * s
  {
    RowCross2(a, b, c, d);
    DiagonalSum(a * a + d * d, b * b + c * c, s, b * d + a * c, c * d - a * b, u.z, u.x, u.y);
  }

  lemma RowPair22(a: real, b: real, c: real, d: real)
    ensures var m := MatrixOf(a, b, c, d);
      Dot(m.r2, m.r2) == SquareSum(a, b, c, d) * SquareSum(a, b, c, d)
  {
    var m := MatrixOf(a, b, c, d);
    RowIdentity22(a, b, c, d, m.r2, SquareSum(a, b, c, d));
  }

  lemma RowDot22(q: Quaternion)
    ensures var m := QuatMatrix(q);
      Dot(m.r2, m.r2) == SumOfSquares(q) * SumOfSquares(q)
  {
    RowPair22(q.a, q.b, q.c, q.d);
  }

  lemma ColIdentity00(a: real, b: real, c: real, d: real, u: Vec3, s: real)
    requires u.x == a * a + b * b - c * c - d * d
    requires u.y == 2.0 * (b * c - a * d)
    requires u.z == 2.0 * (b * d + a * c)
    requires s == a * a + b * b + c * c + d * d
    ensures Dot(u, u) == s * s
  {
    ColCross0(a, b, c, d);
    DiagonalSum(a * a + b * b, c * c + d * d, s, b * c - a * d, b * d + a * c, u.x, u.y, u.z);
  }

  lemma ColPair00(a: real, b: real, c: real, d: real)
    ensures var m := MatrixOf(a, b, c, d);
      Dot(Col0(m), Col0(m)) == SquareSum(a, b, c, d) * SquareSum(a, b, c, d)
  {
    var m := MatrixOf(a, b, c, d);
    ColIdentity00(a, b, c, d, Col0(m), SquareSum(a, b, c, d));
  }

  lemma ColDot00(q: Quaternion)
    ensures var m := QuatMatrix(q);
      Dot(Col0(m), Col0(m)) == SumOfSquares(q) * SumOfSquares(q)
  {
    ColPair00(q.a, q.b, q.c, q.d);
  }

  lemma ColIdentity01(a: real, b: real, c: real, d: real, u: Vec3, v: Vec3)
    requires u.x == a * a + b * b - c * c - d * d
    requires u.y == 2.0 * (b * c - a * d)
    requires u.z == 2.0 * (b * d + a * c)
    requires v.x == 2.0 * (b * c + a * d)
    requires v.y == a * a + c * c - b * b - d * d
    requires v.z == 2.0 * (c * d - a * b)
    ensures Dot(u, v) == 0.0
  {
  }

  lemma ColPair01(a: real, b: real, c: real, d: real)
    ensures var m := MatrixOf(a, b, c, d);
      Dot(Col0(m), Col1(m)) == 0.0
  {
    var m := MatrixOf(a, b, c, d);
    ColIdentity01(a, b, c, d, Col0(m), Col1(m));
  }

  lemma ColDot01(q: Quaternion)
    ensures var m := QuatMatrix(q);
      Dot(Col0(m), Col1(m)) == 0.0
  {
    ColPair01(q.a, q.b, q.c, q.d);
  }

  lemma ColIdentity02(a: real, b: real, c: real, d: real, u: Vec3, v: Vec3)
    requires u.x == a * a + b * b - c * c - d * d
    requires u.y == 2.0 * (b * c - a * d)
    requires u.z == 2.0 * (b * d + a * c)
    requires v.x == 2.0 * (b * d - a * c)
    requires v.y == 2.0 * (c * d + a * b)
    requires v.z == a * a + d * d - b * b - c * c
    ensures Dot(u, v) == 0.0
  {
  }

  lemma ColPair02(a: real, b: real, c: real, d: real)
    ensures var m := MatrixOf(a, b, c, d);
      Dot(Col0(m), Col2(m)) == 0.0
  {
    var m := MatrixOf(a, b, c, d);
    ColIdentity02(a, b, c, d, Col0(m), Col2(m));
  }

  lemma ColDot02(q: Quaternion)
    ensures var m := QuatMatrix(q);
      Dot(Col0(m), Col2(m)) == 0.0
  {
    ColPair02(q.a, q.b, q.c, q.d);
  }

  lemma ColIdentity11(a: real, b: real, c: real, d: real, u: Vec3, s: real)
    requires u.x == 2.0 * (b * c + a * d)
    requires u.y == a * a + c * c - b * b - d * d
    requires u.z == 2.0 * (c * d - a * b)
    requires s == a * a + b * b + c * c + d * d
    ensures Dot(u, u) == s * s
  {
    ColCross1(a, b, c, d);
    DiagonalSum(a * a + c * c, b * b + d * d, s, b * c + a * d, c * d - a * b, u.y, u.x, u.z);
  }

  lemma ColPair11(a: real, b: real, c: real, d: real)
    ensures var m := MatrixOf(a, b, c, d);
      Dot(Col1(m), Col1(m)) == SquareSum(a, b, c, d) * SquareSum(a, b, c, d)
  {
    var m := MatrixOf(a, b, c, d);
    ColIdentity11(a, b, c, d, Col1(m), SquareSum(a, b, c, d));
  }

  lemma ColDot11(q: Quaternion)
    ensures var m := QuatMatrix(q);
      Dot(Col1(m), Col1(m)) == SumOfSquares(q) * SumOfSquares(q)
  {
    ColPair11(q.a, q.b, q.c, q.d);
  }

  lemma ColIdentity12(a: real, b: real, c: real, d: real, u: Vec3, v: Vec3)
    requires u.x == 2.0 * (b * c + a * d)
    requires u.y == a * a + c * c - b * b - d * d
    requires u.z == 2.0 * (c * d - a * b)
    requires v.x == 2.0 * (b * d - a * c)
    requires v.y == 2.0 * (c * d + a * b)
    requires v.z == a * a + d * d - b * b - c * c
    ensures Dot(u, v) == 0.0
  {
  }

  lemma ColPair12(a: real, b: real, c: real, d: real)
    ensures var m := MatrixOf(a, b, c, d);
      Dot(Col1(m), Col2(m)) == 0.0
  {
    var m := MatrixOf(a, b, c, d);
    ColIdentity12(a, b, c, d, Col1(m), Col2(m));
  }

  lemma ColDot12(q: Quaternion)
    ensures var m := QuatMatrix(q);
      Dot(Col1(m), Col2(m)) == 0.0
  {
    ColPair12(q.a, q.b, q.c, q.d);
  }

  lemma ColIdentity22(a: real, b: real, c: real, d: real, u: Vec3, s: real)
    requires u.x == 2.0 * (b * d - a * c)
    requires u.y == 2.0 * (c * d + a * b)
    requires u.z == a * a + d * d - b * b - c * c
    requires s == a * a + b * b + c * c + d * d
    ensures Dot(u, u) == s * s
  {
    ColCross2(a, b, c, d);
    DiagonalSum(a * a + d * d, b * b + c * c, s, b * d - a * c, c * d + a * b, u.z, u.x, u.y);
  }

  lemma ColPair22(a: real, b: real, c: real, d: real)
    ensures var m := MatrixOf(a, b, c, d);
      Dot(Col2(m), Col2(m)) == SquareSum(a, b, c, d) * SquareSum(a, b, c, d)
  {
    var m := MatrixOf(a, b, c, d);
    ColIdentity22(a, b, c, d, Col2(m), SquareSum(a, b, c, d));
  }

  lemma ColDot22(q: Quaternion)
    ensures var m := QuatMatrix(q);
      Dot(Col2(m), Col2(m)) == SumOfSquares(q) * SumOfSquares(q)
  {
    ColPair22(q.a, q.b, q.c, q.d);
  }

  lemma UnitSquare(q: Quaternion)
    requires IsUnit(q)
    ensures SumOfSquares(q) * SumOfSquares(q) == 1.0
  {
  }

  /** A matrix whose rows are orthonormal times its transpose is the identity. */
  lemma OrthonormalRows(m: Mat3)
    requires Dot(m.r0, m.r0) == 1.0 && Dot(m.r1, m.r1) == 1.0 && Dot(m.r2, m.r2) == 1.0
    requires Dot(m.r0, m.r1) == 0.0 && Dot(m.r0, m.r2) == 0.0 && Dot(m.r1, m.r2) == 0.0
    ensures MatMul(m, Transpose(m)) == Identity
  {
    var t := Transpose(m);
    assert Col0(t) == m.r0 && Col1(t) == m.r1 && Col2(t) == m.r2;
    assert Dot(m.r1, m.r0) == Dot(m.r0, m.r1);
    assert Dot(m.r2, m.r0) == Dot(m.r0, m.r2);
    assert Dot(m.r2, m.r1) == Dot(m.r1, m.r2);
  }

  /** The rows of the quaternion matrix of a unit quaternion are orthonormal. */
  lemma RowsOrthonormal(q: Quaternion)
    requires IsUnit(q)
    ensures MatMul(QuatMatrix(q), Transpose(QuatMatrix(q))) == Identity
  {
    var m := QuatMatrix(q);
    RowDot00(q); RowDot11(q); RowDot22(q); RowDot01(q); RowDot02(q); RowDot12(q);
    UnitSquare(q);
    OrthonormalRows(m);
  }

  /** The columns of the quaternion matrix of a unit quaternion are orthonormal. */
  lemma ColumnsOrthonormal(q: Quaternion)
    requires IsUnit(q)
    ensures MatMul(Transpose(QuatMatrix(q)), QuatMatrix(q)) == Identity
  {
    var m := QuatMatrix(q);
    var t := Transpose(m);
    ColDot00(q); ColDot11(q); ColDot22(q); ColDot01(q); ColDot02(q); ColDot12(q);
    UnitSquare(q);
    assert t.r0 == Col0(m) && t.r1 == Col1(m) && t.r2 == Col2(m);
    OrthonormalRows(t);
  }

  // The vector part (b, c, d) of the quaternion is left where it is: for a
  // unit quaternion, each row of its matrix has dot product with (b, c, d)
  // equal to the matching coordinate.

  lemma FixedPoly0(a: real, b: real, c: real, d: real, u: Vec3)
    requires u.x == a * a + b * b - c * c - d * d
    requires u.y == 2.0 * (b * c + a * d)
    requires u.z == 2.0 * (b * d - a * c)
    ensures Dot(Vec3(b, c, d), u) == SquareSum(a, b, c, d) * b
  {
  }

  lemma FixedPair0(a: real, b: real, c: real, d: real)
    ensures Dot(Vec3(b, c, d), MatrixOf(a, b, c, d).r0) == SquareSum(a, b, c, d) * b
  {
    FixedPoly0(a, b, c, d, MatrixOf(a, b, c, d).r0);
  }

  lemma FixedDot0(q: Quaternion)
    ensures Dot(Vec3(q.b, q.c, q.d), QuatMatrix(q).r0) == SumOfSquares(q) * q.b
  {
    FixedPair0(q.a, q.b, q.c, q.d);
  }

  lemma FixedPoly1(a: real, b: real, c: real, d: real, u: Vec3)
    requires u.x == 2.0 * (b * c - a * d)
    requires u.y == a * a + c * c - b * b - d * d
    requires u.z == 2.0 * (c * d + a * b)
    ensures Dot(Vec3(b, c, d), u) == SquareSum(a, b, c, d) * c
  {
  }

  lemma FixedPair1(a: real, b: real, c: real, d: real)
    ensures Dot(Vec3(b, c, d), MatrixOf(a, b, c, d).r1) == SquareSum(a, b, c, d) * c
  {
    FixedPoly1(a, b, c, d, MatrixOf(a, b, c, d).r1);
  }

  lemma FixedDot1(q: Quaternion)
    ensures Dot(Vec3(q.b, q.c, q.d), QuatMatrix(q).r1) == SumOfSquares(q) * q.c
  {
    FixedPair1(q.a, q.b, q.c, q.d);
  }

  lemma FixedPoly2(a: real, b: real, c: real, d: real, u: Vec3)
    requires u.x == 2.0 * (b * d + a * c)
    requires u.y == 2.0 * (c * d - a * b)
    requires u.z == a * a + d * d - b * b - c * c
    ensures Dot(Vec3(b, c, d), u) == SquareSum(a, b, c, d) * d
  {
  }

  lemma FixedPair2(a: real, b: real, c: real, d: real)
    ensures Dot(Vec3(b, c, d), MatrixOf(a, b, c, d).r2) == SquareSum(a, b, c, d) * d
  {
    FixedPoly2(a, b, c, d, MatrixOf(a, b, c, d).r2);
  }

  lemma FixedDot2(q: Quaternion)
    ensures Dot(Vec3(q.b, q.c, q.d), QuatMatrix(q).r2) == SumOfSquares(q) * q.d
  {
    FixedPair2(q.a, q.b, q.c, q.d);
  }

  /** For a unit quaternion the rotation leaves the vector part (b, c, d) unchanged. */
  lemma VectorPartFixed(q: Quaternion)
    requires IsUnit(q)
    ensures var v, m := Vec3(q.b, q.c, q.d), QuatMatrix(q);
      Dot(v, m.r0) == q.b && Dot(v, m.r1) == q.c && Dot(v, m.r2) == q.d
  {
    FixedDot0(q);
    FixedDot1(q);
    FixedDot2(q);
    OneTimes(SumOfSquares(q), q.b);
    OneTimes(SumOfSquares(q), q.c);
    OneTimes(SumOfSquares(q), q.d);
  }

  lemma OneTimes(k: real, w: real)
    requires k == 1.0
    ensures k * w == w
  {
  }

  lemma DotScale(k: real, v: Vec3, w: Vec3)
    ensures Dot(Scale(k, v), w) == k * Dot(v, w)
  {
  }

  lemma CancelFactor(k: real, p: real, r: real)
    requires k != 0.0 && k * p == k * r
    ensures p == r
  {
    assert k * (p - r) == 0.0;
  }

  /**
   * A matrix whose rows map v to v maps axis to axis, when v is a nonzero
   * multiple of axis: norm * v == k * axis with k != 0.
   */
  lemma FixedFromMultiple(k: real, norm: real, axis: Vec3, v: Vec3, m: Mat3)
    requires k != 0.0 && Scale(norm, v) == Scale(k, axis)
    requires Dot(v, m.r0) == v.x && Dot(v, m.r1) == v.y && Dot(v, m.r2) == v.z
    ensures Vec3(Dot(axis, m.r0), Dot(axis, m.r1), Dot(axis, m.r2)) == axis
  {
    assert norm * v.x == k * axis.x && norm * v.y == k * axis.y && norm * v.z == k * axis.z;
    FixedCoordinate(k, norm, axis, v, m.r0, v.x, axis.x);
    FixedCoordinate(k, norm, axis, v, m.r1, v.y, axis.y);
    FixedCoordinate(k, norm, axis, v, m.r2, v.z, axis.z);
  }

  /** One coordinate of FixedFromMultiple: a row that fixes v's coordinate fixes axis's. */
  lemma FixedCoordinate(k: real, norm: real, axis: Vec3, v: Vec3, row: Vec3, vc: real, ac: real)
    requires k != 0.0 && Scale(norm, v) == Scale(k, axis)
    requires Dot(v, row) == vc && norm * vc == k * ac
    ensures Dot(axis, row) == ac
  {
    DotScale(norm, v, row);
    DotScale(k, axis, row);
    CancelFactor(k, Dot(axis, row), ac);
  }

  /** With a zero half-angle sine the quaternion is (+-1, 0, 0, 0) and its matrix is the identity. */
  lemma NoTurnFixesAxis(axis: Vec3, norm: real, cosHalf: real, sinHalf: real)
    requires 0.0 < norm && norm * norm == Dot(axis, axis)
    requires cosHalf * cosHalf + sinHalf * sinHalf == 1.0 && sinHalf == 0.0
    ensures RowTimes(axis, Transpose(QuatMatrix(AxisAngle(axis, norm, cosHalf, sinHalf)))) == axis
  {
    var q := AxisAngle(axis, norm, cosHalf, sinHalf);
    assert cosHalf * cosHalf == 1.0;
    assert q == Quaternion(cosHalf, 0.0, 0.0, 0.0);
    assert QuatMatrix(q) == Identity;
  }

  /** Otherwise the axis is a nonzero multiple of the vector part, which the rotation keeps. */
  lemma TurnFixesAxis(axis: Vec3, norm: real, cosHalf: real, sinHalf: real)
    requires 0.0 < norm && norm * norm == Dot(axis, axis)
    requires cosHalf * cosHalf + sinHalf * sinHalf == 1.0 && sinHalf != 0.0
    ensures RowTimes(axis, Transpose(QuatMatrix(AxisAngle(axis, norm, cosHalf, sinHalf)))) == axis
  {
    var q := AxisAngle(axis, norm, cosHalf, sinHalf);
    var m := QuatMatrix(q);
    assert RowTimes(axis, Transpose(m)) == Vec3(Dot(axis, m.r0), Dot(axis, m.r1), Dot(axis, m.r2));
    VectorPartFixed(q);
    FixedFromMultiple(-sinHalf, norm, axis, Vec3(q.b, q.c, q.d), m);
  }

  /** coo3d.py:56-74: the rotation maps its own axis to itself. */
  lemma AxisFixed(axis: Vec3, norm: real, cosHalf: real, sinHalf: real)
    requires 0.0 < norm && norm * norm == Dot(axis, axis)
    requires cosHalf * cosHalf + sinHalf * sinHalf == 1.0
    ensures RowTimes(axis, NewRotation(axis, norm, cosHalf, sinHalf).rot) == axis
  {
    if sinHalf == 0.0 {
      NoTurnFixesAxis(axis, norm, cosHalf, sinHalf);
    } else {
      TurnFixesAxis(axis, norm, cosHalf, sinHalf);
    }
  }

  // Turning back: the angle -angle has the same half-angle cosine and the
  // opposite half-angle sine.

  /** Negating the half-angle sine conjugates the quaternion. */
  lemma OppositeAngleConjugates(axis: Vec3, norm: real, cosHalf: real, sinHalf: real)
    requires 0.0 < norm && norm * norm == Dot(axis, axis)
    ensures var q := AxisAngle(axis, norm, cosHalf, sinHalf);
      AxisAngle(axis, norm, cosHalf, -sinHalf) == Quaternion(q.a, -q.b, -q.c, -q.d)
  {
    var n := Vec3(axis.x / norm, axis.y / norm, axis.z / norm);
    assert -n.x * -sinHalf == -(-n.x * sinHalf);
    assert -n.y * -sinHalf == -(-n.y * sinHalf);
    assert -n.z * -sinHalf == -(-n.z * sinHalf);
  }

  /** The matrix of the conjugate quaternion is the transpose. */
  lemma ConjugateTransposes(a: real, b: real, c: real, d: real)
    ensures MatrixOf(a, -b, -c, -d) == Transpose(MatrixOf(a, b, c, d))
  {
  }

  /** coo3d.py:56-71: the rotation by -angle stores the transpose of the rotation by angle. */
  lemma OppositeRotationTransposes(axis: Vec3, norm: real, cosHalf: real, sinHalf: real)
    requires 0.0 < norm && norm * norm == Dot(axis, axis)
    ensures NewRotation(axis, norm, cosHalf, -sinHalf).rot == Transpose(NewRotation(axis, norm, cosHalf, sinHalf).rot)
  {
    var q := AxisAngle(axis, norm, cosHalf, sinHalf);
    OppositeAngleConjugates(axis, norm, cosHalf, sinHalf);
    ConjugateTransposes(q.a, q.b, q.c, q.d);
    assert Transpose(Transpose(QuatMatrix(q))) == QuatMatrix(q);
  }

  /** Multiplying by m, then by n, is multiplying by their product. */
  lemma RowTimesAssociates(v: Vec3, m: Mat3, n: Mat3)
    ensures RowTimes(RowTimes(v, m), n) == RowTimes(v, MatMul(m, n))
  {
    var p := MatMul(m, n);
    AssociatesOnColumn(v, m, Col0(n));
    AssociatesOnColumn(v, m, Col1(n));
    AssociatesOnColumn(v, m, Col2(n));
    assert Col0(p) == Vec3(Dot(m.r0, Col0(n)), Dot(m.r1, Col0(n)), Dot(m.r2, Col0(n)));
    assert Col1(p) == Vec3(Dot(m.r0, Col1(n)), Dot(m.r1, Col1(n)), Dot(m.r2, Col1(n)));
    assert Col2(p) == Vec3(Dot(m.r0, Col2(n)), Dot(m.r1, Col2(n)), Dot(m.r2, Col2(n)));
  }

  /** One column c of the product: (v m) . c == v . (m c). */
  lemma AssociatesOnColumn(v: Vec3, m: Mat3, c: Vec3)
    ensures Dot(RowTimes(v, m), c) == Dot(v, Vec3(Dot(m.r0, c), Dot(m.r1, c), Dot(m.r2, c)))
  {
  }

  /** coo3d.py:56-74: rotating by angle, then by -angle about the same axis, gives every point back. */
  lemma TurnBack(axis: Vec3, norm: real, cosHalf: real, sinHalf: real, xyz: seq<Vec3>)
    requires 0.0 < norm && norm * norm == Dot(axis, axis)
    requires cosHalf * cosHalf + sinHalf * sinHalf == 1.0
    ensures Apply(NewRotation(axis, norm, cosHalf, -sinHalf), Apply(NewRotation(axis, norm, cosHalf, sinHalf), xyz)) == xyz
  {
    var r := NewRotation(axis, norm, cosHalf, sinHalf);
    var back := NewRotation(axis, norm, cosHalf, -sinHalf);
    RotationOrthogonal(axis, norm, cosHalf, sinHalf);
    OppositeRotationTransposes(axis, norm, cosHalf, sinHalf);
    var out := Apply(back, Apply(r, xyz));
    forall i | 0 <= i < |xyz|
      ensures out[i] == xyz[i]
    {
      RowTimesAssociates(xyz[i], r.rot, back.rot);
    }
  }

  function Add(u: Vec3, v: Vec3): Vec3
  {
    Vec3(u.x + v.x, u.y + v.y, u.z + v.z)
  }

  function Sub(u: Vec3, v: Vec3): Vec3
  {
    Vec3(u.x - v.x, u.y - v.y, u.z - v.z)
  }

  /** Multiplying by a matrix distributes over sums and differences of row vectors. */
  lemma RowTimesLinear(v: Vec3, w: Vec3, m: Mat3)
    ensures RowTimes(Add(v, w), m) == Add(RowTimes(v, m), RowTimes(w, m))
    ensures RowTimes(Sub(v, w), m) == Sub(RowTimes(v, m), RowTimes(w, m))
  {
  }

  /** The polarization identity: a dot product from two squared lengths. */
  lemma Polarization(u: Vec3, v: Vec3)
    ensures 4.0 * Dot(u, v) == Dot(Add(u, v), Add(u, v)) - Dot(Sub(u, v), Sub(u, v))
  {
  }

  /** A matrix whose product with its transpose is the identity keeps dot products, hence angles. */
  lemma DotKept(v: Vec3, w: Vec3, m: Mat3)
    requires MatMul(m, Transpose(m)) == Identity
    ensures Dot(RowTimes(v, m), RowTimes(w, m)) == Dot(v, w)
  {
    RowTimesLinear(v, w, m);
    LengthKept(Add(v, w), m);
    LengthKept(Sub(v, w), m);
    Polarization(v, w);
    Polarization(RowTimes(v, m), RowTimes(w, m));
  }

  /** coo3d.py:56-74: the rotation keeps the dot product of any two points of the batch. */
  lemma ApplyKeepsAngles(axis: Vec3, norm: real, cosHalf: real, sinHalf: real, xyz: seq<Vec3>)
    requires 0.0 < norm && norm * norm == Dot(axis, axis)
    requires cosHalf * cosHalf + sinHalf * sinHalf == 1.0
    ensures var out := Apply(NewRotation(axis, norm, cosHalf, sinHalf), xyz);
      forall i, j :: 0 <= i < |xyz| && 0 <= j < |xyz| ==> Dot(out[i], out[j]) == Dot(xyz[i], xyz[j])
  {
    var r := NewRotation(axis, norm, cosHalf, sinHalf);
    RotationOrthogonal(axis, norm, cosHalf, sinHalf);
    var out := Apply(r, xyz);
    forall i, j | 0 <= i < |xyz| && 0 <= j < |xyz|
      ensures Dot(out[i], out[j]) == Dot(xyz[i], xyz[j])
    {
      DotKept(xyz[i], xyz[j], r.rot);
    }
  }

  /** The quaternion of a quarter turn about the z axis: cos(pi/4) == sin(pi/4) == c. */
  lemma QuarterTurnQuaternion(c: real)
    ensures AxisAngle(Vec3(0.0, 0.0, 1.0), 1.0, c, c) == Quaternion(c, 0.0, 0.0, -c)
  {
  }

  lemma QuarterTurnMatrix(c: real)
    requires c * c == 0.5
    ensures QuatMatrix(Quaternion(c, 0.0, 0.0, -c))
         == Mat3(Vec3(0.0, -1.0, 0.0), Vec3(1.0, 0.0, 0.0), Vec3(0.0, 0.0, 1.0))
  {
    assert c * (-c) == -0.5;
    assert (-c) * (-c) == 0.5;
  }

  lemma QuarterTurnRotation(c: real)
    requires c * c == 0.5
    ensures NewRotation(Vec3(0.0, 0.0, 1.0), 1.0, c, c)
         == Rotation(Mat3(Vec3(0.0, 1.0, 0.0), Vec3(-1.0, 0.0, 0.0), Vec3(0.0, 0.0, 1.0)))
  {
    QuarterTurnQuaternion(c);
    QuarterTurnMatrix(c);
  }

  /**
   * tests/test_coo3d.py:16-37: a quarter turn about the z axis, with
   * cos(pi/4) == sin(pi/4) == c, sends x to y, y to -x, keeps z, and -x to -y.
   */
  lemma QuarterTurnExample(c: real)
    requires c * c == 0.5
    ensures Apply(NewRotation(Vec3(0.0, 0.0, 1.0), 1.0, c, c),
                  [Vec3(1.0, 0.0, 0.0), Vec3(0.0, 1.0, 0.0), Vec3(0.0, 0.0, 1.0), Vec3(-1.0, 0.0, 0.0)])
         == [Vec3(0.0, 1.0, 0.0), Vec3(-1.0, 0.0, 0.0), Vec3(0.0, 0.0, 1.0), Vec3(0.0, -1.0, 0.0)]
  {
    QuarterTurnRotation(c);
    QuarterTurnRows(Rotation(Mat3(Vec3(0.0, 1.0, 0.0), Vec3(-1.0, 0.0, 0.0), Vec3(0.0, 0.0, 1.0))));
  }

  lemma QuarterTurnRows(r: Rotation)
    requires r.rot == Mat3(Vec3(0.0, 1.0, 0.0), Vec3(-1.0, 0.0, 0.0), Vec3(0.0, 0.0, 1.0))
    ensures Apply(r, [Vec3(1.0, 0.0, 0.0), Vec3(0.0, 1.0, 0.0), Vec3(0.0, 0.0, 1.0), Vec3(-1.0, 0.0, 0.0)])
         == [Vec3(0.0, 1.0, 0.0), Vec3(-1.0, 0.0, 0.0), Vec3(0.0, 0.0, 1.0), Vec3(0.0, -1.0, 0.0)]
  {
    ApplyFour(r, Vec3(1.0, 0.0, 0.0), Vec3(0.0, 1.0, 0.0), Vec3(0.0, 0.0, 1.0), Vec3(-1.0, 0.0, 0.0));
  }

  lemma ApplyFour(r: Rotation, p0: Vec3, p1: Vec3, p2: Vec3, p3: Vec3)
    ensures Apply(r, [p0, p1, p2, p3])
         == [RowTimes(p0, r.rot), RowTimes(p1, r.rot), RowTimes(p2, r.rot), RowTimes(p3, r.rot)]
  {
    var out := Apply(r, [p0, p1, p2, p3]);
    assert out[0] == RowTimes(p0, r.rot) && out[1] == RowTimes(p1, r.rot);
    assert out[2] == RowTimes(p2, r.rot) && out[3] == RowTimes(p3, r.rot);
  }
}
