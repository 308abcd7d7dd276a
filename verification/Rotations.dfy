/**
 Rotations by what they do: they keep the dot and the cross product of any two vectors. They are
 exactly the proper rotation matrices of Matrices; this form of the definition is the one the
 other modules carry around.
 */
module Rotations {
  import opened Matrices

  /** For vectors without a fourth component. */
  predicate KeepsProducts(m: Mat4, a: Vec4, b: Vec4) {
    a.w == 0.0 && b.w == 0.0 ==>
      && Dot(RowMul(a, m), RowMul(b, m)) == Dot(a, b)
      && Cross(RowMul(a, m), RowMul(b, m)) == RowMul(Cross(a, b), m)
  }

  ghost predicate IsRotation(m: Mat4) {
    LastIsUnit(m) && forall a, b :: KeepsProducts(m, a, b)
  }

  lemma UnitIsRotation()
    ensures IsRotation(IDENTITY)
  {
    hide IsProper, IsRotation;
    IdentityIsProper();
    ProperIsRotation(IDENTITY);
  }

  function Unit(): (m: Mat4)
    ensures IsRotation(m)
  {
    UnitIsRotation();
    IDENTITY
  }

  type Rotation = m: Mat4 | IsRotation(m) witness Unit()

  lemma ProperKeepsDot(m: Proper, a: Vec4, b: Vec4)
    ensures Dot(RowMul(a, m), RowMul(b, m)) == Dot(a, b)
  {
    var t := Transpose(m);
    DotAssoc(a, m, RowMul(b, m));
    RowMulTranspose(RowMul(b, m), m);
    RowMulAssoc(b, m, t);
    MulIdentity(Mat4(b, b, b, b));
    hide Dot, RowMul, MulCol;
  }

  lemma ProperIsRotation(m: Proper)
    ensures IsRotation(m)
  {
    hide IsProper, Dot, Cross, RowMul, Det;
    RotationFacts(m);
    forall a, b ensures KeepsProducts(m, a, b) {
      if a.w == 0.0 && b.w == 0.0 {
        ProperKeepsDot(m, a, b);
        CrossOfImages(a, b, m);
      }
    }
  }

  lemma BasisImages(m: Mat4)
    ensures RowMul(IDENTITY.r0, m) == m.r0 && RowMul(IDENTITY.r1, m) == m.r1 && RowMul(IDENTITY.r2, m) == m.r2
  {
  }

  lemma DotBasis(v: Vec4)
    ensures Dot(IDENTITY.r0, v) == v.x && Dot(IDENTITY.r1, v) == v.y && Dot(IDENTITY.r2, v) == v.z
  {
  }

  lemma CrossBasis(v: Vec4)
    ensures Cross(IDENTITY.r0, v) == Vec4(0.0, -v.z, v.y, 0.0)
    ensures Cross(IDENTITY.r1, v) == Vec4(v.z, 0.0, -v.x, 0.0)
    ensures Cross(IDENTITY.r2, v) == Vec4(-v.y, v.x, 0.0, 0.0)
  {
  }

  /** The rows of a rotation are orthonormal, and each is the cross product of the other two. */
  lemma RowsOfRotation(m: Rotation)
    ensures Dot(m.r0, m.r0) == 1.0 && Dot(m.r1, m.r1) == 1.0 && Dot(m.r2, m.r2) == 1.0
    ensures Dot(m.r0, m.r1) == 0.0 && Dot(m.r1, m.r2) == 0.0 && Dot(m.r2, m.r0) == 0.0
    ensures Cross(m.r0, m.r1) == m.r2 && Cross(m.r1, m.r2) == m.r0 && Cross(m.r2, m.r0) == m.r1
  {
    hide Dot, Cross, RowMul;
    var x, y, z := IDENTITY.r0, IDENTITY.r1, IDENTITY.r2;
    BasisImages(m);
    CrossBasis(x);
    CrossBasis(y);
    CrossBasis(z);
    DotBasis(x);
    DotBasis(y);
    DotBasis(z);
    assert KeepsProducts(m, x, x) && KeepsProducts(m, y, y) && KeepsProducts(m, z, z);
    assert KeepsProducts(m, x, y) && KeepsProducts(m, y, z) && KeepsProducts(m, z, x);
  }

  lemma Times(p: real, q: real, a: real)
    requires p == q
    ensures p * a == q * a
  {
  }

  lemma DetByColumn(a: real, b: real, c: real, d: real, e: real, f: real, g: real, h: real, i: real)
    ensures (e * i - f * h) * a + (h * c - i * b) * d + (b * f - c * e) * g == Det3(a, b, c, d, e, f, g, h, i)
  {
  }

  lemma OtherColumns(a: real, b: real, c: real, d: real, e: real, f: real, g: real, h: real, i: real)
    ensures (e * i - f * h) * b + (h * c - i * b) * e + (b * f - c * e) * h == 0.0
    ensures (e * i - f * h) * c + (h * c - i * b) * f + (b * f - c * e) * i == 0.0
  {
  }

  lemma DetTurned(a: real, b: real, c: real, d: real, e: real, f: real, g: real, h: real, i: real)
    ensures Det3(b, c, a, e, f, d, h, i, g) == Det3(a, b, c, d, e, f, g, h, i)
  {
  }

  /** Cramer's rule for rows (a, b, c), (d, e, f), (g, h, i): the first components p, q, s of the
      cross products of two rows each, against the columns. */
  lemma Cramer(a: real, b: real, c: real, d: real, e: real, f: real, g: real, h: real, i: real,
               p: real, q: real, s: real)
    requires p == e * i - f * h && q == h * c - i * b && s == b * f - c * e
    ensures p * a + q * d + s * g == Det3(a, b, c, d, e, f, g, h, i)
    ensures p * b + q * e + s * h == 0.0
    ensures p * c + q * f + s * i == 0.0
  {
    hide Det3;
    Times(p, e * i - f * h, a);
    Times(p, e * i - f * h, b);
    Times(p, e * i - f * h, c);
    Times(q, h * c - i * b, d);
    Times(q, h * c - i * b, e);
    Times(q, h * c - i * b, f);
    Times(s, b * f - c * e, g);
    Times(s, b * f - c * e, h);
    Times(s, b * f - c * e, i);
    DetByColumn(a, b, c, d, e, f, g, h, i);
    OtherColumns(a, b, c, d, e, f, g, h, i);
  }

  lemma CrossParts(u: Vec4, v: Vec4)
    ensures Cross(u, v).x == u.y * v.z - u.z * v.y
    ensures Cross(u, v).y == u.z * v.x - u.x * v.z
    ensures Cross(u, v).z == u.x * v.y - u.y * v.x
  {
  }

  lemma DetIs(m: Mat4)
    ensures Det(m) == Det3(m.r0.x, m.r0.y, m.r0.z, m.r1.x, m.r1.y, m.r1.z, m.r2.x, m.r2.y, m.r2.z)
  {
    hide Det3;
  }

  lemma ColumnX(m: Rotation)
    ensures m.r0.x * m.r0.x + m.r1.x * m.r1.x + m.r2.x * m.r2.x == Det(m)
    ensures m.r0.x * m.r0.y + m.r1.x * m.r1.y + m.r2.x * m.r2.y == 0.0
    ensures m.r0.x * m.r0.z + m.r1.x * m.r1.z + m.r2.x * m.r2.z == 0.0
  {
    hide IsRotation, Det, Det3, Cross, Dot;
    RowsOfRotation(m);
    var (u, v, w) := (m.r0, m.r1, m.r2);
    CrossParts(v, w);
    CrossParts(w, u);
    CrossParts(u, v);
    Cramer(u.x, u.y, u.z, v.x, v.y, v.z, w.x, w.y, w.z, u.x, v.x, w.x);
    DetIs(m);
  }

  lemma ColumnY(m: Rotation)
    ensures m.r0.y * m.r0.x + m.r1.y * m.r1.x + m.r2.y * m.r2.x == 0.0
    ensures m.r0.y * m.r0.y + m.r1.y * m.r1.y + m.r2.y * m.r2.y == Det(m)
    ensures m.r0.y * m.r0.z + m.r1.y * m.r1.z + m.r2.y * m.r2.z == 0.0
  {
    hide IsRotation, Det, Det3, Cross, Dot;
    RowsOfRotation(m);
    var (u, v, w) := (m.r0, m.r1, m.r2);
    CrossParts(v, w);
    CrossParts(w, u);
    CrossParts(u, v);
    Cramer(u.y, u.z, u.x, v.y, v.z, v.x, w.y, w.z, w.x, u.y, v.y, w.y);
    DetTurned(u.x, u.y, u.z, v.x, v.y, v.z, w.x, w.y, w.z);
    DetIs(m);
  }

  lemma ColumnZ(m: Rotation)
    ensures m.r0.z * m.r0.x + m.r1.z * m.r1.x + m.r2.z * m.r2.x == 0.0
    ensures m.r0.z * m.r0.y + m.r1.z * m.r1.y + m.r2.z * m.r2.y == 0.0
    ensures m.r0.z * m.r0.z + m.r1.z * m.r1.z + m.r2.z * m.r2.z == Det(m)
  {
    hide IsRotation, Det, Det3, Cross, Dot;
    RowsOfRotation(m);
    var (u, v, w) := (m.r0, m.r1, m.r2);
    CrossParts(v, w);
    CrossParts(w, u);
    CrossParts(u, v);
    Cramer(u.z, u.x, u.y, v.z, v.x, v.y, w.z, w.x, w.y, u.z, v.z, w.z);
    DetTurned(u.x, u.y, u.z, v.x, v.y, v.z, w.x, w.y, w.z);
    DetTurned(u.y, u.z, u.x, v.y, v.z, v.x, w.y, w.z, w.x);
    DetIs(m);
  }

  lemma DetOfRotation(m: Rotation)
    ensures Det(m) == 1.0
  {
    hide IsRotation, Det, Cross, Dot;
    RowsOfRotation(m);
    DetIsTriple(m);
  }

  lemma RotationColumns(m: Rotation)
    ensures Mul(Transpose(m), m) == IDENTITY && Det(m) == 1.0
  {
    hide IsRotation, Det, RowMul;
    DetOfRotation(m);
    ColumnsX(m);
    ColumnsY(m);
    ColumnsZ(m);
    ColumnsW(m);
  }

  lemma ColumnsX(m: Rotation)
    ensures RowMul(Transpose(m).r0, m) == IDENTITY.r0
  {
    hide IsRotation, Det;
    RotationLast(m);
    DetOfRotation(m);
    ColumnX(m);
  }

  lemma ColumnsY(m: Rotation)
    ensures RowMul(Transpose(m).r1, m) == IDENTITY.r1
  {
    hide IsRotation, Det;
    RotationLast(m);
    DetOfRotation(m);
    ColumnY(m);
  }

  lemma ColumnsZ(m: Rotation)
    ensures RowMul(Transpose(m).r2, m) == IDENTITY.r2
  {
    hide IsRotation, Det;
    RotationLast(m);
    DetOfRotation(m);
    ColumnZ(m);
  }

  lemma ColumnsW(m: Rotation)
    ensures RowMul(Transpose(m).r3, m) == IDENTITY.r3
  {
    hide IsRotation, Det;
    RotationLast(m);
  }

  lemma RotationLast(m: Rotation)
    ensures LastIsUnit(m)
  {
  }

  /** The entries of a matrix times its transpose are the dot products of its rows. */
  lemma RowsByRows(m: Mat4)
    requires LastIsUnit(m)
    ensures var p := Mul(m, Transpose(m));
      && p.r0 == Vec4(Dot(m.r0, m.r0), Dot(m.r0, m.r1), Dot(m.r0, m.r2), 0.0)
      && p.r1 == Vec4(Dot(m.r1, m.r0), Dot(m.r1, m.r1), Dot(m.r1, m.r2), 0.0)
      && p.r2 == Vec4(Dot(m.r2, m.r0), Dot(m.r2, m.r1), Dot(m.r2, m.r2), 0.0)
      && p.r3 == IDENTITY.r3
  {
    hide Dot;
    assert Transpose(Transpose(m)) == m;
    DotLast(m.r0);
    DotLast(m.r1);
    DotLast(m.r2);
    DotLast(m.r3);
  }

  lemma DotLast(v: Vec4)
    ensures Dot(v, IDENTITY.r3) == v.w && Dot(IDENTITY.r3, v) == v.w
  {
  }

  lemma RowsAreUnit(m: Rotation)
    ensures Mul(m, Transpose(m)) == IDENTITY
  {
    hide IsRotation, Cross, Dot, Mul, Transpose, LastIsUnit;
    RotationLast(m);
    RowsOfRotation(m);
    RowsByRows(m);
    DotCommutes(m.r0, m.r1);
    DotCommutes(m.r1, m.r2);
    DotCommutes(m.r2, m.r0);
  }

  lemma ProperOfRotation(m: Rotation)
    ensures IsProper(m)
  {
    hide IsRotation, Mul, Transpose, Det, LastIsUnit;
    RotationLast(m);
    RotationColumns(m);
    RowsAreUnit(m);
  }

  /** Keeping products is the same as having an orthonormal 3x3 part of determinant 1. */
  lemma RotationIsProper(m: Mat4)
    ensures IsRotation(m) <==> IsProper(m)
  {
    hide IsRotation, IsProper;
    if IsProper(m) {
      ProperIsRotation(m);
    }
    if IsRotation(m) {
      ProperOfRotation(m);
    }
  }

  lemma ProductIsRotation(m: Rotation, n: Rotation)
    ensures IsRotation(Mul(m, n))
  {
    hide IsRotation, IsProper;
    RotationIsProper(m);
    RotationIsProper(n);
    ProductIsProper(m, n);
    RotationIsProper(Mul(m, n));
  }

  /** A rotation has an inverse, which is its transpose and a rotation. */
  lemma InverseOfRotation(m: Rotation)
    ensures Det4(m) == 1.0 && Inverse(m) == Transpose(m) && IsRotation(Inverse(m))
    ensures Mul(Inverse(m), m) == IDENTITY && Mul(m, Inverse(m)) == IDENTITY
  {
    hide IsRotation, IsProper, Inverse, Transpose, Mul, Det4;
    RotationIsProper(m);
    InverseOfProper(m);
    TransposeIsProper(m);
    RotationIsProper(Transpose(m));
  }

  /** Whatever matrix undoes a rotation is that inverse, however it was computed. */
  lemma OnlyInverse(m: Rotation, b: Mat4)
    requires Mul(m, b) == IDENTITY
    ensures Det4(m) == 1.0 && b == Inverse(m)
  {
    hide IsRotation, Inverse, Mul, Transpose, Det4;
    InverseOfRotation(m);
    InverseIsUnique(m, Inverse(m), b);
  }
}
