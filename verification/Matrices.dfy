/** 4x4 real matrices, the proper rotations among them, and what glm::inverse computes for those. */
module Matrices {

  datatype Vec4 = Vec4(x: real, y: real, z: real, w: real)

  /** A matrix by its rows. */
  datatype Mat4 = Mat4(r0: Vec4, r1: Vec4, r2: Vec4, r3: Vec4)

  const IDENTITY := Mat4(
    Vec4(1.0, 0.0, 0.0, 0.0), Vec4(0.0, 1.0, 0.0, 0.0), Vec4(0.0, 0.0, 1.0, 0.0), Vec4(0.0, 0.0, 0.0, 1.0))

  function Transpose(m: Mat4): Mat4 {
    Mat4(Vec4(m.r0.x, m.r1.x, m.r2.x, m.r3.x), Vec4(m.r0.y, m.r1.y, m.r2.y, m.r3.y),
         Vec4(m.r0.z, m.r1.z, m.r2.z, m.r3.z), Vec4(m.r0.w, m.r1.w, m.r2.w, m.r3.w))
  }

  function Dot(a: Vec4, b: Vec4): real {
    a.x * b.x + a.y * b.y + a.z * b.z + a.w * b.w
  }

  /** The products of v with the four columns of m, and of the four rows of m with v. */
  function RowMul(v: Vec4, m: Mat4): Vec4 {
    var t := Transpose(m);
    Vec4(Dot(v, t.r0), Dot(v, t.r1), Dot(v, t.r2), Dot(v, t.r3))
  }

  function MulCol(m: Mat4, v: Vec4): Vec4 {
    Vec4(Dot(m.r0, v), Dot(m.r1, v), Dot(m.r2, v), Dot(m.r3, v))
  }

  function Mul(m: Mat4, n: Mat4): Mat4 {
    Mat4(RowMul(m.r0, n), RowMul(m.r1, n), RowMul(m.r2, n), RowMul(m.r3, n))
  }

  function Det3(a: real, b: real, c: real, d: real, e: real, f: real, g: real, h: real, i: real): real {
    a * (e * i - f * h) - b * (d * i - f * g) + c * (d * h - e * g)
  }

  /** The determinant of the 3x3 part. */
  function Det(m: Mat4): real {
    Det3(m.r0.x, m.r0.y, m.r0.z, m.r1.x, m.r1.y, m.r1.z, m.r2.x, m.r2.y, m.r2.z)
  }

  predicate LastIsUnit(m: Mat4) {
    m.r0.w == 0.0 && m.r1.w == 0.0 && m.r2.w == 0.0 && m.r3 == Vec4(0.0, 0.0, 0.0, 1.0)
  }

  /** A proper rotation: orthonormal 3x3 part, determinant 1, last row and column (0, 0, 0, 1). */
  predicate IsProper(m: Mat4) {
    LastIsUnit(m) && Mul(m, Transpose(m)) == IDENTITY && Mul(Transpose(m), m) == IDENTITY && Det(m) == 1.0
  }

  function Identity(): (m: Mat4)
    ensures IsProper(m)
  {
    IdentityIsProper();
    IDENTITY
  }

  lemma IdentityIsProper()
    ensures IsProper(IDENTITY)
  {
    hide Mul, Det;
    MulIdentity(IDENTITY);
    assert Transpose(IDENTITY) == IDENTITY;
    assert Det(IDENTITY) == 1.0 by { DetIsTriple(IDENTITY); }
  }

  type Proper = m: Mat4 | IsProper(m) witness Identity()

  // ---------------------------------------------------------------- products

  lemma MulIdentity(m: Mat4)
    ensures Mul(m, IDENTITY) == m && Mul(IDENTITY, m) == m
  {
  }

  lemma DotCommutes(a: Vec4, b: Vec4)
    ensures Dot(a, b) == Dot(b, a)
  {
  }

  lemma RowMulTranspose(v: Vec4, m: Mat4)
    ensures RowMul(v, Transpose(m)) == MulCol(m, v)
  {
    hide Dot;
    DotCommutes(v, m.r0);
    DotCommutes(v, m.r1);
    DotCommutes(v, m.r2);
    DotCommutes(v, m.r3);
  }

  lemma TransposeMul(m: Mat4, n: Mat4)
    ensures Transpose(Mul(m, n)) == Mul(Transpose(n), Transpose(m))
  {
    hide Dot;
    var t := Transpose(n);
    RowMulTranspose(t.r0, m);
    RowMulTranspose(t.r1, m);
    RowMulTranspose(t.r2, m);
    RowMulTranspose(t.r3, m);
  }

  lemma Scale(a: real, b: Vec4, c: Vec4)
    ensures a * Dot(b, c) == Dot(Vec4(a * b.x, a * b.y, a * b.z, a * b.w), c)
  {
    assert a * (b.x * c.x) == (a * b.x) * c.x;
    assert a * (b.y * c.y) == (a * b.y) * c.y;
    assert a * (b.z * c.z) == (a * b.z) * c.z;
    assert a * (b.w * c.w) == (a * b.w) * c.w;
  }

  lemma DotSum(a: Vec4, b: Vec4, c: Vec4, d: Vec4, v: Vec4)
    ensures Dot(Vec4(a.x + b.x + c.x + d.x, a.y + b.y + c.y + d.y, a.z + b.z + c.z + d.z, a.w + b.w + c.w + d.w), v)
         == Dot(a, v) + Dot(b, v) + Dot(c, v) + Dot(d, v)
  {
  }

  lemma DotAssoc(v: Vec4, m: Mat4, c: Vec4)
    ensures Dot(RowMul(v, m), c) == Dot(v, MulCol(m, c))
  {
    Scale(v.x, m.r0, c);
    Scale(v.y, m.r1, c);
    Scale(v.z, m.r2, c);
    Scale(v.w, m.r3, c);
    DotSum(Vec4(v.x * m.r0.x, v.x * m.r0.y, v.x * m.r0.z, v.x * m.r0.w),
           Vec4(v.y * m.r1.x, v.y * m.r1.y, v.y * m.r1.z, v.y * m.r1.w),
           Vec4(v.z * m.r2.x, v.z * m.r2.y, v.z * m.r2.z, v.z * m.r2.w),
           Vec4(v.w * m.r3.x, v.w * m.r3.y, v.w * m.r3.z, v.w * m.r3.w), c);
  }

  lemma RowMulAssoc(v: Vec4, m: Mat4, n: Mat4)
    ensures RowMul(RowMul(v, m), n) == RowMul(v, Mul(m, n))
  {
    hide Dot;
    var t := Transpose(n);
    DotAssoc(v, m, t.r0);
    DotAssoc(v, m, t.r1);
    DotAssoc(v, m, t.r2);
    DotAssoc(v, m, t.r3);
  }

  lemma MulAssoc(a: Mat4, b: Mat4, c: Mat4)
    ensures Mul(Mul(a, b), c) == Mul(a, Mul(b, c))
  {
    hide RowMul;
    RowMulAssoc(a.r0, b, c);
    RowMulAssoc(a.r1, b, c);
    RowMulAssoc(a.r2, b, c);
    RowMulAssoc(a.r3, b, c);
  }

  /** A matrix has one two-sided inverse at most. */
  lemma InverseIsUnique(m: Mat4, a: Mat4, b: Mat4)
    requires Mul(a, m) == IDENTITY && Mul(m, b) == IDENTITY
    ensures a == b
  {
    hide Mul;
    MulAssoc(a, m, b);
    MulIdentity(a);
    MulIdentity(b);
  }

  // ---------------------------------------------------------------- cross products

  /** The cross product of the first three components. */
  function Cross(a: Vec4, b: Vec4): Vec4 {
    Vec4(a.y * b.z - a.z * b.y, a.z * b.x - a.x * b.z, a.x * b.y - a.y * b.x, 0.0)
  }

  lemma CrossIsNormal(a: Vec4, b: Vec4)
    ensures Dot(a, Cross(a, b)) == 0.0 && Dot(b, Cross(a, b)) == 0.0
  {
  }

  lemma DetIsTriple(m: Mat4)
    ensures Det(m) == Dot(m.r2, Cross(m.r0, m.r1))
    ensures Det(m) == Dot(m.r0, Cross(m.r1, m.r2))
    ensures Det(m) == Dot(m.r1, Cross(m.r2, m.r0))
  {
    hide Dot, Cross, Det3;
    var (a, b, c) := (m.r0, m.r1, m.r2);
    TripleProduct(a, b, c);
    TripleProduct(b, c, a);
    TripleProduct(c, a, b);
    DetByRows(a.x, a.y, a.z, b.x, b.y, b.z, c.x, c.y, c.z);
  }

  lemma TripleProduct(u: Vec4, v: Vec4, w: Vec4)
    ensures Dot(w, Cross(u, v)) ==
            w.x * (u.y * v.z - u.z * v.y) + w.y * (u.z * v.x - u.x * v.z) + w.z * (u.x * v.y - u.y * v.x)
  {
  }

  lemma DetByRows(a: real, b: real, c: real, d: real, e: real, f: real, g: real, h: real, i: real)
    ensures Det3(a, b, c, d, e, f, g, h, i) == a * (e * i - f * h) + b * (f * g - d * i) + c * (d * h - e * g)
    ensures Det3(a, b, c, d, e, f, g, h, i) == d * (h * c - i * b) + e * (i * a - g * c) + f * (g * b - h * a)
    ensures Det3(a, b, c, d, e, f, g, h, i) == g * (b * f - c * e) + h * (c * d - a * f) + i * (a * e - b * d)
  {
  }

  /** A vector is known by its products with the rows of a rotation. */
  lemma Reconstruct(m: Proper, c: Vec4)
    ensures RowMul(MulCol(m, c), m) == c
  {
    var t := Transpose(m);
    RowMulTranspose(c, m);
    RowMulAssoc(c, t, m);
    MulIdentity(Mat4(c, c, c, c));
  }

  lemma RowIs(m: Proper, c: Vec4)
    ensures MulCol(m, c) == IDENTITY.r0 ==> c == m.r0
    ensures MulCol(m, c) == IDENTITY.r1 ==> c == m.r1
    ensures MulCol(m, c) == IDENTITY.r2 ==> c == m.r2
  {
    hide IsProper, MulCol;
    Reconstruct(m, c);
    assert RowMul(IDENTITY.r0, m) == m.r0;
    assert RowMul(IDENTITY.r1, m) == m.r1;
    assert RowMul(IDENTITY.r2, m) == m.r2;
  }

  lemma RotationFacts(m: Proper)
    ensures m.r3 == IDENTITY.r3 && m.r0.w == m.r1.w == m.r2.w == 0.0 && Det(m) == 1.0
  {
  }

  /** Each row of a rotation is the cross product of the other two, in order. */
  lemma RowsAreCrosses(m: Proper)
    ensures Cross(m.r0, m.r1) == m.r2 && Cross(m.r1, m.r2) == m.r0 && Cross(m.r2, m.r0) == m.r1
  {
    hide IsProper, Det;
    RotationFacts(m);
    DetIsTriple(m);
    CrossIsNormal(m.r0, m.r1);
    CrossIsNormal(m.r1, m.r2);
    CrossIsNormal(m.r2, m.r0);
    hide Cross;
    assert Dot(m.r3, Cross(m.r0, m.r1)) == 0.0 && Dot(m.r3, Cross(m.r1, m.r2)) == 0.0 &&
           Dot(m.r3, Cross(m.r2, m.r0)) == 0.0
    by {
      NoFourth(m.r0, m.r1);
      NoFourth(m.r1, m.r2);
      NoFourth(m.r2, m.r0);
    }
    RowIs(m, Cross(m.r0, m.r1));
    RowIs(m, Cross(m.r1, m.r2));
    RowIs(m, Cross(m.r2, m.r0));
  }

  lemma NoFourth(a: Vec4, b: Vec4)
    ensures Dot(IDENTITY.r3, Cross(a, b)) == 0.0
  {
  }

  // ---------------------------------------------------------------- rotations form a group

  /** The transpose of a rotation is a rotation and undoes it on either side. */
  lemma TransposeIsProper(m: Proper)
    ensures IsProper(Transpose(m))
    ensures Mul(Transpose(m), m) == IDENTITY && Mul(m, Transpose(m)) == IDENTITY
  {
    hide Mul;
    assert Transpose(Transpose(m)) == m;
  }

  /** Lagrange's identity. */
  lemma Lagrange(a: Vec4, b: Vec4, p: Vec4, q: Vec4)
    requires a.w == 0.0 && b.w == 0.0
    ensures Dot(a, p) * Dot(b, q) - Dot(a, q) * Dot(b, p) == Dot(Cross(a, b), Cross(p, q))
  {
  }

  /** A rotation carries cross products to cross products. */
  lemma CrossOfImages(a: Vec4, b: Vec4, n: Proper)
    requires a.w == 0.0 && b.w == 0.0
    ensures Cross(RowMul(a, n), RowMul(b, n)) == RowMul(Cross(a, b), n)
  {
    TransposeIsProper(n);
    var t := Transpose(n);
    RowsAreCrosses(t);
    RotationFacts(t);
    NoFourth(a, b);
    Lagrange(a, b, t.r0, t.r1);
    Lagrange(a, b, t.r1, t.r2);
    Lagrange(a, b, t.r2, t.r0);
    hide IsProper, Dot;
    assert Dot(Cross(a, b), t.r3) == 0.0 by { DotCommutes(Cross(a, b), t.r3); }
  }

  lemma DetOfProduct(m: Proper, n: Proper)
    requires Mul(Mul(m, n), Transpose(Mul(m, n))) == IDENTITY
    ensures Det(Mul(m, n)) == 1.0
  {
    RotationFacts(m);
    CrossOfImages(m.r0, m.r1, n);
    RowsAreCrosses(m);
    hide IsProper, Det, Cross, RowMul;
    var p := Mul(m, n);
    DetIsTriple(p);
    assert Cross(p.r0, p.r1) == p.r2;
    UnitRow(p);
  }

  lemma UnitRow(p: Mat4)
    requires Mul(p, Transpose(p)) == IDENTITY
    ensures Dot(p.r2, p.r2) == 1.0
  {
    hide Dot;
    assert Mul(p, Transpose(p)).r2.z == Dot(p.r2, p.r2);
  }

  lemma OrthogonalProduct(m: Mat4, n: Mat4)
    requires Mul(m, Transpose(m)) == IDENTITY && Mul(n, Transpose(n)) == IDENTITY
    ensures Mul(Mul(m, n), Transpose(Mul(m, n))) == IDENTITY
  {
    hide Mul, Transpose;
    var t, u := Transpose(m), Transpose(n);
    TransposeMul(m, n);
    MulAssoc(m, n, Mul(u, t));
    MulAssoc(n, u, t);
    MulIdentity(t);
  }

  /** The product of two rotations is a rotation. */
  lemma ProductIsProper(m: Proper, n: Proper)
    ensures IsProper(Mul(m, n))
  {
    OrthogonalProduct(m, n);
    DetOfProduct(m, n);
    var t, u := Transpose(m), Transpose(n);
    assert Transpose(t) == m && Transpose(u) == n;
    OrthogonalProduct(u, t);
    TransposeMul(m, n);
    LastOfProduct(m, n);
    hide Mul, Det;
    assert Transpose(Transpose(Mul(m, n))) == Mul(m, n);
  }

  lemma LastOfProduct(m: Proper, n: Proper)
    ensures LastIsUnit(Mul(m, n))
  {
    assert LastIsUnit(m) && LastIsUnit(n);
    hide IsProper;
  }

  // ---------------------------------------------------------------- the general inverse

  /** The minor of m without row i and column j. */
  function Minor(m: Mat4, i: nat, j: nat): real {
    var (a, b, c) :=
      if i == 0 then (m.r1, m.r2, m.r3) else if i == 1 then (m.r0, m.r2, m.r3)
      else if i == 2 then (m.r0, m.r1, m.r3) else (m.r0, m.r1, m.r2);
    if j == 0 then Det3(a.y, a.z, a.w, b.y, b.z, b.w, c.y, c.z, c.w)
    else if j == 1 then Det3(a.x, a.z, a.w, b.x, b.z, b.w, c.x, c.z, c.w)
    else if j == 2 then Det3(a.x, a.y, a.w, b.x, b.y, b.w, c.x, c.y, c.w)
    else Det3(a.x, a.y, a.z, b.x, b.y, b.z, c.x, c.y, c.z)
  }

  function Det4(m: Mat4): real {
    m.r0.x * Minor(m, 0, 0) - m.r0.y * Minor(m, 0, 1) + m.r0.z * Minor(m, 0, 2) - m.r0.w * Minor(m, 0, 3)
  }

  /** glm::inverse: the adjugate over the determinant, for any matrix that has one. */
  function Inverse(m: Mat4): Mat4
    requires Det4(m) != 0.0
  {
    var d := Det4(m);
    Mat4(Vec4(Minor(m, 0, 0) / d, -Minor(m, 1, 0) / d, Minor(m, 2, 0) / d, -Minor(m, 3, 0) / d),
         Vec4(-Minor(m, 0, 1) / d, Minor(m, 1, 1) / d, -Minor(m, 2, 1) / d, Minor(m, 3, 1) / d),
         Vec4(Minor(m, 0, 2) / d, -Minor(m, 1, 2) / d, Minor(m, 2, 2) / d, -Minor(m, 3, 2) / d),
         Vec4(-Minor(m, 0, 3) / d, Minor(m, 1, 3) / d, -Minor(m, 2, 3) / d, Minor(m, 3, 3) / d))
  }

  /** Where the last row and column are (0, 0, 0, 1) the minors are those of the 3x3 part. */
  lemma MinorsOfRow0(m: Mat4)
    requires LastIsUnit(m)
    ensures var a := Cross(m.r1, m.r2);
      Minor(m, 0, 0) == a.x && Minor(m, 0, 1) == -a.y && Minor(m, 0, 2) == a.z && Minor(m, 0, 3) == 0.0
  {
  }

  lemma MinorsOfRow1(m: Mat4)
    requires LastIsUnit(m)
    ensures var b := Cross(m.r2, m.r0);
      Minor(m, 1, 0) == -b.x && Minor(m, 1, 1) == b.y && Minor(m, 1, 2) == -b.z && Minor(m, 1, 3) == 0.0
  {
  }

  lemma MinorsOfRow2(m: Mat4)
    requires LastIsUnit(m)
    ensures var c := Cross(m.r0, m.r1);
      Minor(m, 2, 0) == c.x && Minor(m, 2, 1) == -c.y && Minor(m, 2, 2) == c.z && Minor(m, 2, 3) == 0.0
  {
  }

  lemma MinorsOfRow3(m: Mat4)
    requires LastIsUnit(m)
    ensures Minor(m, 3, 0) == 0.0 && Minor(m, 3, 1) == 0.0 && Minor(m, 3, 2) == 0.0 && Minor(m, 3, 3) == Det(m)
  {
  }

  /** A rotation has an inverse, and it is the transpose. */
  lemma InverseOfProper(m: Proper)
    ensures Det4(m) == 1.0 && Inverse(m) == Transpose(m)
  {
    RotationFacts(m);
    RowsAreCrosses(m);
    MinorsOfRow0(m);
    MinorsOfRow1(m);
    MinorsOfRow2(m);
    MinorsOfRow3(m);
    DetIsTriple(m);
    hide IsProper, Minor, Cross;
  }
}
