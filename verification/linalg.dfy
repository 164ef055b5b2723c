/** Three-dimensional vectors and 3x3 matrices over the reals, in the
    row-vector convention the forward-kinematics code uses: a point is a
    row vector `v` and `v·M` applies the matrix `M` to it.

    The solver does not substitute equal terms inside products, so the
    algebraic lemmas below are proved coordinate by coordinate through
    scalar identities whose arguments are the coordinates themselves. */
module LinAlg {

  datatype Vec3 = Vec3(x: real, y: real, z: real)

  /** A 3x3 matrix stored as its three rows. */
  datatype Mat3 = Mat3(r1: Vec3, r2: Vec3, r3: Vec3)

  const Zero: Vec3 := Vec3(0.0, 0.0, 0.0)

  const Identity: Mat3 :=
    Mat3(Vec3(1.0, 0.0, 0.0), Vec3(0.0, 1.0, 0.0), Vec3(0.0, 0.0, 1.0))

  function Add(u: Vec3, v: Vec3): Vec3 {
    Vec3(u.x + v.x, u.y + v.y, u.z + v.z)
  }

  function Sub(u: Vec3, v: Vec3): Vec3 {
    Vec3(u.x - v.x, u.y - v.y, u.z - v.z)
  }

  function Dot(u: Vec3, v: Vec3): real {
    u.x * v.x + u.y * v.y + u.z * v.z
  }

  /** Squared Euclidean length. */
  function Norm2(v: Vec3): real {
    Dot(v, v)
  }

  /** The row vector `v` right-multiplied by `m`. */
  function VecMat(v: Vec3, m: Mat3): Vec3 {
    Vec3(v.x * m.r1.x + v.y * m.r2.x + v.z * m.r3.x,
         v.x * m.r1.y + v.y * m.r2.y + v.z * m.r3.y,
         v.x * m.r1.z + v.y * m.r2.z + v.z * m.r3.z)
  }

  /** Matrix product `a·b`: row i of the product is row i of `a` times `b`. */
  function MatMul(a: Mat3, b: Mat3): Mat3 {
    Mat3(VecMat(a.r1, b), VecMat(a.r2, b), VecMat(a.r3, b))
  }

  function Transpose(m: Mat3): Mat3 {
    Mat3(Vec3(m.r1.x, m.r2.x, m.r3.x),
         Vec3(m.r1.y, m.r2.y, m.r3.y),
         Vec3(m.r1.z, m.r2.z, m.r3.z))
  }

  /** Determinant of the matrix with rows (a11 a12 a13), (a21 a22 a23), (a31 a32 a33). */
  function Det3(a11: real, a12: real, a13: real,
                a21: real, a22: real, a23: real,
                a31: real, a32: real, a33: real): real
  {
    a11 * (a22 * a33 - a23 * a32)
    - a12 * (a21 * a33 - a23 * a31)
    + a13 * (a21 * a32 - a22 * a31)
  }

  function Det(m: Mat3): real {
    Det3(m.r1.x, m.r1.y, m.r1.z, m.r2.x, m.r2.y, m.r2.z, m.r3.x, m.r3.y, m.r3.z)
  }

  /** A rotation: its transpose is its inverse and it keeps orientation. */
  predicate Orthonormal(m: Mat3) {
    MatMul(m, Transpose(m)) == Identity && Det(m) == 1.0
  }

  /** Sum of a sequence of vectors, accumulated from the front. */
  function Sum(vs: seq<Vec3>): Vec3 {
    if vs == [] then Zero else Add(Sum(vs[..|vs| - 1]), vs[|vs| - 1])
  }

  lemma VecMatIdentity(v: Vec3)
    ensures VecMat(v, Identity) == v
  {
  }

  lemma MatMulIdentity(m: Mat3)
    ensures MatMul(Identity, m) == m && MatMul(m, Identity) == m
  {
  }

  lemma TransposeInvolution(m: Mat3)
    ensures Transpose(Transpose(m)) == m
  {
  }

  /** One coordinate of `(v·a)·b` regrouped as one coordinate of `v·(a·b)`;
      `w` stands for `v·a` and `m` for the matching column of `a·b`. */
  lemma Regroup(v1: real, v2: real, v3: real,
                a11: real, a12: real, a13: real,
                a21: real, a22: real, a23: real,
                a31: real, a32: real, a33: real,
                b1: real, b2: real, b3: real,
                w1: real, w2: real, w3: real,
                m1: real, m2: real, m3: real)
    requires w1 == v1 * a11 + v2 * a21 + v3 * a31
    requires w2 == v1 * a12 + v2 * a22 + v3 * a32
    requires w3 == v1 * a13 + v2 * a23 + v3 * a33
    requires m1 == a11 * b1 + a12 * b2 + a13 * b3
    requires m2 == a21 * b1 + a22 * b2 + a23 * b3
    requires m3 == a31 * b1 + a32 * b2 + a33 * b3
    ensures w1 * b1 + w2 * b2 + w3 * b3 == v1 * m1 + v2 * m2 + v3 * m3
  {
  }

  lemma VecMatAssocX(v: Vec3, a: Mat3, b: Mat3)
    ensures VecMat(VecMat(v, a), b).x == VecMat(v, MatMul(a, b)).x
  {
    var w, m := VecMat(v, a), MatMul(a, b);
    Regroup(v.x, v.y, v.z, a.r1.x, a.r1.y, a.r1.z, a.r2.x, a.r2.y, a.r2.z,
            a.r3.x, a.r3.y, a.r3.z, b.r1.x, b.r2.x, b.r3.x,
            w.x, w.y, w.z, m.r1.x, m.r2.x, m.r3.x);
  }

  lemma VecMatAssocY(v: Vec3, a: Mat3, b: Mat3)
    ensures VecMat(VecMat(v, a), b).y == VecMat(v, MatMul(a, b)).y
  {
    var w, m := VecMat(v, a), MatMul(a, b);
    Regroup(v.x, v.y, v.z, a.r1.x, a.r1.y, a.r1.z, a.r2.x, a.r2.y, a.r2.z,
            a.r3.x, a.r3.y, a.r3.z, b.r1.y, b.r2.y, b.r3.y,
            w.x, w.y, w.z, m.r1.y, m.r2.y, m.r3.y);
  }

  lemma VecMatAssocZ(v: Vec3, a: Mat3, b: Mat3)
    ensures VecMat(VecMat(v, a), b).z == VecMat(v, MatMul(a, b)).z
  {
    var w, m := VecMat(v, a), MatMul(a, b);
    Regroup(v.x, v.y, v.z, a.r1.x, a.r1.y, a.r1.z, a.r2.x, a.r2.y, a.r2.z,
            a.r3.x, a.r3.y, a.r3.z, b.r1.z, b.r2.z, b.r3.z,
            w.x, w.y, w.z, m.r1.z, m.r2.z, m.r3.z);
  }

  /** Applying `a` and then `b` to a row vector is applying `a·b`. */
  lemma VecMatAssoc(v: Vec3, a: Mat3, b: Mat3)
    ensures VecMat(VecMat(v, a), b) == VecMat(v, MatMul(a, b))
  {
    VecMatAssocX(v, a, b);
    VecMatAssocY(v, a, b);
    VecMatAssocZ(v, a, b);
  }

  lemma MatMulAssoc(a: Mat3, b: Mat3, c: Mat3)
    ensures MatMul(MatMul(a, b), c) == MatMul(a, MatMul(b, c))
  {
    VecMatAssoc(a.r1, b, c);
    VecMatAssoc(a.r2, b, c);
    VecMatAssoc(a.r3, b, c);
  }

  /** Transposition reverses the order of a product. */
  lemma TransposeMatMul(a: Mat3, b: Mat3)
    ensures Transpose(MatMul(a, b)) == MatMul(Transpose(b), Transpose(a))
  {
  }

  /** The determinant of a product, with the product written out entry by entry. */
  lemma Det3ProductExpanded(a11: real, a12: real, a13: real,
                            a21: real, a22: real, a23: real,
                            a31: real, a32: real, a33: real,
                            b11: real, b12: real, b13: real,
                            b21: real, b22: real, b23: real,
                            b31: real, b32: real, b33: real)
    ensures Det3(a11 * b11 + a12 * b21 + a13 * b31,
                 a11 * b12 + a12 * b22 + a13 * b32,
                 a11 * b13 + a12 * b23 + a13 * b33,
                 a21 * b11 + a22 * b21 + a23 * b31,
                 a21 * b12 + a22 * b22 + a23 * b32,
                 a21 * b13 + a22 * b23 + a23 * b33,
                 a31 * b11 + a32 * b21 + a33 * b31,
                 a31 * b12 + a32 * b22 + a33 * b32,
                 a31 * b13 + a32 * b23 + a33 * b33)
         == Det3(a11, a12, a13, a21, a22, a23, a31, a32, a33)
          * Det3(b11, b12, b13, b21, b22, b23, b31, b32, b33)
  {
  }

  /** The determinant of a product of matrices given entry by entry:
      `c` is the product of `a` and `b`. */
  lemma Det3Product(a11: real, a12: real, a13: real,
                    a21: real, a22: real, a23: real,
                    a31: real, a32: real, a33: real,
                    b11: real, b12: real, b13: real,
                    b21: real, b22: real, b23: real,
                    b31: real, b32: real, b33: real,
                    c11: real, c12: real, c13: real,
                    c21: real, c22: real, c23: real,
                    c31: real, c32: real, c33: real)
    requires c11 == a11 * b11 + a12 * b21 + a13 * b31
    requires c12 == a11 * b12 + a12 * b22 + a13 * b32
    requires c13 == a11 * b13 + a12 * b23 + a13 * b33
    requires c21 == a21 * b11 + a22 * b21 + a23 * b31
    requires c22 == a21 * b12 + a22 * b22 + a23 * b32
    requires c23 == a21 * b13 + a22 * b23 + a23 * b33
    requires c31 == a31 * b11 + a32 * b21 + a33 * b31
    requires c32 == a31 * b12 + a32 * b22 + a33 * b32
    requires c33 == a31 * b13 + a32 * b23 + a33 * b33
    ensures Det3(c11, c12, c13, c21, c22, c23, c31, c32, c33)
         == Det3(a11, a12, a13, a21, a22, a23, a31, a32, a33)
          * Det3(b11, b12, b13, b21, b22, b23, b31, b32, b33)
  {
    Det3ProductExpanded(a11, a12, a13, a21, a22, a23, a31, a32, a33,
                        b11, b12, b13, b21, b22, b23, b31, b32, b33);
  }

  /** The determinant of a product is the product of the determinants. */
  lemma DetMatMul(a: Mat3, b: Mat3)
    ensures Det(MatMul(a, b)) == Det(a) * Det(b)
  {
    var m := MatMul(a, b);
    Det3Product(a.r1.x, a.r1.y, a.r1.z, a.r2.x, a.r2.y, a.r2.z, a.r3.x, a.r3.y, a.r3.z,
                b.r1.x, b.r1.y, b.r1.z, b.r2.x, b.r2.y, b.r2.z, b.r3.x, b.r3.y, b.r3.z,
                m.r1.x, m.r1.y, m.r1.z, m.r2.x, m.r2.y, m.r2.z, m.r3.x, m.r3.y, m.r3.z);
  }

  /** Transposing keeps the determinant. */
  lemma DetTranspose(m: Mat3)
    ensures Det(Transpose(m)) == Det(m)
  {
  }

  /** Rotations are closed under composition. */
  lemma OrthonormalMatMul(a: Mat3, b: Mat3)
    requires Orthonormal(a) && Orthonormal(b)
    ensures Orthonormal(MatMul(a, b))
  {
    calc {
      MatMul(MatMul(a, b), Transpose(MatMul(a, b)));
    == { TransposeMatMul(a, b); }
      MatMul(MatMul(a, b), MatMul(Transpose(b), Transpose(a)));
    == { MatMulAssoc(a, b, MatMul(Transpose(b), Transpose(a))); }
      MatMul(a, MatMul(b, MatMul(Transpose(b), Transpose(a))));
    == { MatMulAssoc(b, Transpose(b), Transpose(a)); }
      MatMul(a, MatMul(MatMul(b, Transpose(b)), Transpose(a)));
    == { MatMulIdentity(Transpose(a)); }
      MatMul(a, Transpose(a));
    }
    DetMatMul(a, b);
  }

  /** Summing a sequence extended at the back adds its last vector. */
  lemma SumAppend(vs: seq<Vec3>, v: Vec3)
    ensures Sum(vs + [v]) == Add(Sum(vs), v)
  {
    assert (vs + [v])[..|vs|] == vs;
  }

  lemma DetIdentity()
    ensures Det(Identity) == 1.0
  {
    assert Det(Identity) == Det3(1.0, 0.0, 0.0, 0.0, 1.0, 0.0, 0.0, 0.0, 1.0);
  }

  lemma OrthonormalIdentity()
    ensures Orthonormal(Identity)
  {
    assert Transpose(Identity) == Identity;
    MatMulIdentity(Identity);
    DetIdentity();
  }

  /** Moving a matrix across a dot product transposes it, one scalar at a
      time: `p` stands for `w·m^T` and `q` for `v·m`. */
  lemma AdjointScalar(w1: real, w2: real, w3: real, v1: real, v2: real, v3: real,
                      m11: real, m12: real, m13: real,
                      m21: real, m22: real, m23: real,
                      m31: real, m32: real, m33: real,
                      p1: real, p2: real, p3: real, q1: real, q2: real, q3: real)
    requires p1 == w1 * m11 + w2 * m12 + w3 * m13
    requires p2 == w1 * m21 + w2 * m22 + w3 * m23
    requires p3 == w1 * m31 + w2 * m32 + w3 * m33
    requires q1 == v1 * m11 + v2 * m21 + v3 * m31
    requires q2 == v1 * m12 + v2 * m22 + v3 * m32
    requires q3 == v1 * m13 + v2 * m23 + v3 * m33
    ensures p1 * v1 + p2 * v2 + p3 * v3 == w1 * q1 + w2 * q2 + w3 * q3
  {
  }

  lemma DotAdjoint(w: Vec3, v: Vec3, m: Mat3)
    ensures Dot(VecMat(w, Transpose(m)), v) == Dot(w, VecMat(v, m))
  {
    var p, q := VecMat(w, Transpose(m)), VecMat(v, m);
    AdjointScalar(w.x, w.y, w.z, v.x, v.y, v.z,
                  m.r1.x, m.r1.y, m.r1.z, m.r2.x, m.r2.y, m.r2.z, m.r3.x, m.r3.y, m.r3.z,
                  p.x, p.y, p.z, q.x, q.y, q.z);
  }

  /** A rotation keeps the length of every vector it is applied to. */
  lemma OrthonormalPreservesNorm(v: Vec3, m: Mat3)
    requires Orthonormal(m)
    ensures Norm2(VecMat(v, m)) == Norm2(v)
  {
    var w := VecMat(v, m);
    DotAdjoint(w, v, m);
    VecMatAssoc(v, m, Transpose(m));
    VecMatIdentity(v);
  }
}
