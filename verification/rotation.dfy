/** Rotation matrices from Euler angle triples (`batch_rot3d`,
    h36m_fa/fk.py, lines 211-263). The trigonometric functions are
    parameters: the model works over the reals and needs of them only the
    values at 0 and, for orthonormality, that cos^2 + sin^2 = 1. */
module Rotation {
  import opened LinAlg

  /** Rotation about the x axis by an angle whose cosine is `c` and sine
      `s`: it leaves the x axis where it is and scales volumes by
      c^2 + s^2. */
  function RotX(c: real, s: real): (m: Mat3)
    ensures VecMat(Vec3(1.0, 0.0, 0.0), m) == Vec3(1.0, 0.0, 0.0)
    ensures Det(m) == c * c + s * s
  {
    Mat3(Vec3(1.0, 0.0, 0.0),
         Vec3(0.0, c, -s),
         Vec3(0.0, s, c))
  }

  /** Rotation about the y axis: it leaves the y axis where it is. */
  function RotY(c: real, s: real): (m: Mat3)
    ensures VecMat(Vec3(0.0, 1.0, 0.0), m) == Vec3(0.0, 1.0, 0.0)
    ensures Det(m) == c * c + s * s
  {
    Mat3(Vec3(c, 0.0, s),
         Vec3(0.0, 1.0, -0.0),
         Vec3(-s, 0.0, c))
  }

  /** Rotation about the z axis: it leaves the z axis where it is. */
  function RotZ(c: real, s: real): (m: Mat3)
    ensures VecMat(Vec3(0.0, 0.0, 1.0), m) == Vec3(0.0, 0.0, 1.0)
    ensures Det(m) == c * c + s * s
  {
    Mat3(Vec3(c, -s, 0.0),
         Vec3(s, c, 0.0),
         Vec3(0.0, 0.0, 1.0))
  }

  /** c^2 + s^2 for the angle `t`: the determinant of each elementary
      rotation by `t`. */
  function Unit(t: real, cos: real -> real, sin: real -> real): real {
    cos(t) * cos(t) + sin(t) * sin(t)
  }

  /** The rotation for one angle triple (x, y, z): `Rz·Ry·Rx`, so that a
      column vector is turned about x first, then y, then z; transposed when
      `invRot` is set. Either way its determinant is the product of those
      of the three elementary rotations, which is 1 for true sines and
      cosines. */
  function Rot3d(angle: Vec3, invRot: bool, cos: real -> real, sin: real -> real): (m: Mat3)
    ensures Det(m) == Unit(angle.z, cos, sin) * Unit(angle.y, cos, sin) * Unit(angle.x, cos, sin)
  {
    var rx := RotX(cos(angle.x), sin(angle.x));
    var ry := RotY(cos(angle.y), sin(angle.y));
    var rz := RotZ(cos(angle.z), sin(angle.z));
    var r := MatMul(MatMul(rz, ry), rx);
    DetMatMul(rz, ry);
    DetMatMul(MatMul(rz, ry), rx);
    DetTranspose(r);
    ProductOfThree(Det(r), Det(MatMul(rz, ry)), Det(rz), Det(ry), Det(rx),
                   Unit(angle.z, cos, sin), Unit(angle.y, cos, sin), Unit(angle.x, cos, sin));
    var m := if invRot then Transpose(r) else r;
    assert Det(m) == Det(r);
    m
  }

  /** Substitutes a two-factor product into a second product. */
  lemma ProductOfThree(d: real, d1: real, a: real, b: real, c: real, a': real, b': real, c': real)
    requires d1 == a * b && d == d1 * c
    requires a == a' && b == b' && c == c'
    ensures d == a' * b' * c'
  {
  }

  /** One rotation matrix per angle triple, each built from its own triple only. */
  function BatchRot3d(r: seq<Vec3>, invRot: bool, cos: real -> real, sin: real -> real): (rs: seq<Mat3>)
    ensures |rs| == |r|
  {
    seq(|r|, i requires 0 <= i < |r| => Rot3d(r[i], invRot, cos, sin))
  }

  /** The textbook closed form of `Rz(c)·Ry(b)·Rx(a)`, entry by entry. */
  function ZyxClosedForm(cx: real, sx: real, cy: real, sy: real, cz: real, sz: real): Mat3 {
    Mat3(Vec3(cz * cy, cz * sy * sx - sz * cx, cz * sy * cx + sz * sx),
         Vec3(sz * cy, sz * sy * sx + cz * cx, sz * sy * cx - cz * sx),
         Vec3(-sy, cy * sx, cy * cx))
  }

  /** Without the flag, each matrix is the closed-form Z-Y-X rotation of
      its own angle triple. */
  lemma BatchRot3dClosedForm(r: seq<Vec3>, cos: real -> real, sin: real -> real, i: int)
    requires 0 <= i < |r|
    ensures BatchRot3d(r, false, cos, sin)[i]
         == ZyxClosedForm(cos(r[i].x), sin(r[i].x), cos(r[i].y), sin(r[i].y), cos(r[i].z), sin(r[i].z))
  {
    var a := r[i];
    ZyxProduct(cos(a.x), sin(a.x), cos(a.y), sin(a.y), cos(a.z), sin(a.z));
  }

  /** The product of the three elementary matrices, multiplied out. */
  lemma ZyxProduct(cx: real, sx: real, cy: real, sy: real, cz: real, sz: real)
    ensures MatMul(MatMul(RotZ(cz, sz), RotY(cy, sy)), RotX(cx, sx)) == ZyxClosedForm(cx, sx, cy, sy, cz, sz)
  {
    var zy := MatMul(RotZ(cz, sz), RotY(cy, sy));
    assert zy == Mat3(Vec3(cz * cy, -sz, cz * sy), Vec3(sz * cy, cz, sz * sy), Vec3(-sy, 0.0, cy));
    var rx := RotX(cx, sx);
    assert VecMat(zy.r1, rx) == Vec3(cz * cy, cz * sy * sx - sz * cx, cz * sy * cx + sz * sx);
    assert VecMat(zy.r2, rx) == Vec3(sz * cy, sz * sy * sx + cz * cx, sz * sy * cx - cz * sx);
    assert VecMat(zy.r3, rx) == Vec3(-sy, cy * sx, cy * cx);
  }

  /** With the flag, every matrix is exactly the transpose of the one
      computed without it. */
  lemma BatchRot3dInverse(r: seq<Vec3>, cos: real -> real, sin: real -> real)
    ensures |BatchRot3d(r, true, cos, sin)| == |BatchRot3d(r, false, cos, sin)|
    ensures forall i :: 0 <= i < |r| ==>
              BatchRot3d(r, true, cos, sin)[i] == Transpose(BatchRot3d(r, false, cos, sin)[i])
  {
  }

  /** The flagged matrix is the product of the elementary matrices with
      their sines negated, taken in the reverse order (x, then y, then z).
      With an even cosine and an odd sine this is `Rx(-a)·Ry(-b)·Rz(-c)`;
      nothing here assumes that of `cos` and `sin`. */
  lemma Rot3dInverseOrder(angle: Vec3, cos: real -> real, sin: real -> real)
    ensures Rot3d(angle, true, cos, sin)
         == MatMul(MatMul(RotX(cos(angle.x), -sin(angle.x)), RotY(cos(angle.y), -sin(angle.y))),
                   RotZ(cos(angle.z), -sin(angle.z)))
  {
    var rx := RotX(cos(angle.x), sin(angle.x));
    var ry := RotY(cos(angle.y), sin(angle.y));
    var rz := RotZ(cos(angle.z), sin(angle.z));
    TransposeMatMul(MatMul(rz, ry), rx);
    TransposeMatMul(rz, ry);
    MatMulAssoc(Transpose(rx), Transpose(ry), Transpose(rz));
  }

  /** All-zero angles give the identity, with or without the flag. */
  lemma Rot3dAtZero(invRot: bool, cos: real -> real, sin: real -> real)
    requires cos(0.0) == 1.0 && sin(0.0) == 0.0
    ensures Rot3d(Zero, invRot, cos, sin) == Identity
  {
    MatMulIdentity(Identity);
  }

  /** When cos^2 + sin^2 = 1 holds for the three angles, the matrix is a
      rotation (its transpose is its inverse and its determinant is 1),
      with or without the flag. */
  lemma Rot3dOrthonormal(angle: Vec3, invRot: bool, cos: real -> real, sin: real -> real)
    requires cos(angle.x) * cos(angle.x) + sin(angle.x) * sin(angle.x) == 1.0
    requires cos(angle.y) * cos(angle.y) + sin(angle.y) * sin(angle.y) == 1.0
    requires cos(angle.z) * cos(angle.z) + sin(angle.z) * sin(angle.z) == 1.0
    ensures Orthonormal(Rot3d(angle, invRot, cos, sin))
  {
    var cx, sx, cy, sy, cz, sz := cos(angle.x), sin(angle.x), cos(angle.y), sin(angle.y), cos(angle.z), sin(angle.z);
    if invRot {
      ElementaryOrthonormal(cx, -sx, cy, -sy, cz, -sz);
      OrthonormalMatMul(RotX(cx, -sx), RotY(cy, -sy));
      OrthonormalMatMul(MatMul(RotX(cx, -sx), RotY(cy, -sy)), RotZ(cz, -sz));
      Rot3dInverseOrder(angle, cos, sin);
    } else {
      ElementaryOrthonormal(cx, sx, cy, sy, cz, sz);
      OrthonormalMatMul(RotZ(cz, sz), RotY(cy, sy));
      OrthonormalMatMul(MatMul(RotZ(cz, sz), RotY(cy, sy)), RotX(cx, sx));
    }
  }

  /** The three elementary matrices are rotations when cos^2 + sin^2 = 1. */
  lemma ElementaryOrthonormal(cx: real, sx: real, cy: real, sy: real, cz: real, sz: real)
    requires cx * cx + sx * sx == 1.0
    requires cy * cy + sy * sy == 1.0
    requires cz * cz + sz * sz == 1.0
    ensures Orthonormal(RotX(cx, sx)) && Orthonormal(RotY(cy, sy)) && Orthonormal(RotZ(cz, sz))
  {
  }
}
