/**
 The values behind Transform: a translation vector, added component by component, and a rotation
 matrix, multiplied. An angle is the pair of its cosine and sine.
 */
module Poses {
  import opened Matrices
  import opened Rotations

  datatype CosSin = CosSin(c: real, s: real)

  predicate OnCircle(t: CosSin) {
    t.c * t.c + t.s * t.s == 1.0
  }

  type Turn = t: CosSin | OnCircle(t) witness CosSin(1.0, 0.0)

  const NO_TURN: Turn := CosSin(1.0, 0.0)

  datatype Vec3 = Vec3(x: real, y: real, z: real)

  const ZERO := Vec3(0.0, 0.0, 0.0)

  function Plus(a: Vec3, b: Vec3): Vec3 {
    Vec3(a.x + b.x, a.y + b.y, a.z + b.z)
  }

  function Minus(a: Vec3): Vec3 {
    Vec3(-a.x, -a.y, -a.z)
  }

  function At(v: Vec3, i: nat): real
    requires i < 3
  {
    if i == 0 then v.x else if i == 1 then v.y else v.z
  }

  function With(v: Vec3, i: nat, amount: real): Vec3
    requires i < 3
  {
    if i == 0 then v.(x := amount) else if i == 1 then v.(y := amount) else v.(z := amount)
  }

  /** glm::eulerAngleYXZ with one angle given and the others zero: index 0 is the pitch about x,
      1 the yaw about y, 2 the roll about z. */
  function AxisTurn(index: nat, t: Turn): Mat4
    requires index < 3
  {
    if index == 0 then
      Mat4(Vec4(1.0, 0.0, 0.0, 0.0), Vec4(0.0, t.c, -t.s, 0.0), Vec4(0.0, t.s, t.c, 0.0), Vec4(0.0, 0.0, 0.0, 1.0))
    else if index == 1 then
      Mat4(Vec4(t.c, 0.0, t.s, 0.0), Vec4(0.0, 1.0, 0.0, 0.0), Vec4(-t.s, 0.0, t.c, 0.0), Vec4(0.0, 0.0, 0.0, 1.0))
    else
      Mat4(Vec4(t.c, -t.s, 0.0, 0.0), Vec4(t.s, t.c, 0.0, 0.0), Vec4(0.0, 0.0, 1.0, 0.0), Vec4(0.0, 0.0, 0.0, 1.0))
  }

  lemma PitchIsProper(t: Turn)
    ensures IsProper(AxisTurn(0, t))
  {
    var m := AxisTurn(0, t);
    assert Mul(m, Transpose(m)) == IDENTITY;
    assert Mul(Transpose(m), m) == IDENTITY;
  }

  lemma YawIsProper(t: Turn)
    ensures IsProper(AxisTurn(1, t))
  {
    var m := AxisTurn(1, t);
    assert Mul(m, Transpose(m)) == IDENTITY;
    assert Mul(Transpose(m), m) == IDENTITY;
  }

  lemma RollIsProper(t: Turn)
    ensures IsProper(AxisTurn(2, t))
  {
    var m := AxisTurn(2, t);
    assert Mul(m, Transpose(m)) == IDENTITY;
    assert Mul(Transpose(m), m) == IDENTITY;
  }

  lemma AxisTurnIsRotation(index: nat, t: Turn)
    requires index < 3
    ensures IsRotation(AxisTurn(index, t))
  {
    hide IsRotation, IsProper, AxisTurn;
    RotationIsProper(AxisTurn(index, t));
    PitchIsProper(t);
    YawIsProper(t);
    RollIsProper(t);
  }

  /** Three angles, about x, y and z. */
  datatype Euler = Euler(x: Turn, y: Turn, z: Turn)

  /** The matrix that rotate(0), rotate(1), rotate(2) build from the identity. */
  function EulerMatrix(e: Euler): Mat4 {
    hide OnCircle, Mul, AxisTurn;
    Mul(Mul(Mul(IDENTITY, AxisTurn(0, e.x)), AxisTurn(1, e.y)), AxisTurn(2, e.z))
  }

  // ---------------------------------------------------------------- the group of poses

  datatype Pose = Pose(tran: Vec3, rot: Rotation)

  function Still(): Pose {
    Pose(ZERO, Unit())
  }

  /** add_transform: `q` applied after `p`. */
  function Compose(q: Pose, p: Pose): Pose {
    ProductIsRotation(q.rot, p.rot);
    Pose(Plus(p.tran, q.tran), Mul(q.rot, p.rot))
  }

  /** invert, with the inverse as the library computes it. */
  function Invert(p: Pose): Pose {
    hide IsRotation, Inverse, OnCircle;
    InverseOfRotation(p.rot);
    Pose(Minus(p.tran), Inverse(p.rot))
  }

  lemma ComposeAssoc(r: Pose, q: Pose, p: Pose)
    ensures Compose(Compose(r, q), p) == Compose(r, Compose(q, p))
  {
    hide Mul, IsRotation;
    MulAssoc(r.rot, q.rot, p.rot);
  }

  lemma StillIsNeutral(p: Pose)
    ensures Compose(p, Still()) == p && Compose(Still(), p) == p
  {
    hide Mul, IsRotation;
    MulIdentity(p.rot);
  }

  lemma InvertUndoes(p: Pose)
    ensures Compose(Invert(p), p) == Still() && Compose(p, Invert(p)) == Still()
  {
    hide Mul, IsRotation, Inverse;
    InverseOfRotation(p.rot);
  }

  /** A pose that undoes p is its inverse. */
  lemma InverseIsInvert(p: Pose, q: Pose)
    requires Compose(q, p) == Still()
    ensures q == Invert(p)
  {
    hide Compose, Invert;
    ComposeAssoc(q, p, Invert(p));
    InvertUndoes(p);
    StillIsNeutral(q);
    StillIsNeutral(Invert(p));
  }

  /** invert is an involution. */
  lemma InvertTwice(p: Pose)
    ensures Invert(Invert(p)) == p
  {
    hide Compose, Invert;
    InvertUndoes(p);
    InverseIsInvert(Invert(p), p);
  }

  lemma InvertCompose(q: Pose, p: Pose)
    ensures Invert(Compose(q, p)) == Compose(Invert(p), Invert(q))
  {
    hide Compose, Invert;
    var a, b := Invert(p), Invert(q);
    ComposeAssoc(a, b, Compose(q, p));
    ComposeAssoc(b, q, p);
    InvertUndoes(q);
    InvertUndoes(p);
    StillIsNeutral(p);
    InverseIsInvert(Compose(q, p), Compose(a, b));
  }

  /** Adding a transform and then adding it inverted restores translation and matrix. */
  lemma AddThenAddInverted(p: Pose, t: Pose)
    ensures Compose(Invert(t), Compose(t, p)) == p && Compose(t, Compose(Invert(t), p)) == p
  {
    hide Compose, Invert;
    ComposeAssoc(Invert(t), t, p);
    ComposeAssoc(t, Invert(t), p);
    InvertUndoes(t);
    StillIsNeutral(p);
  }

  lemma CancelRight(q: Pose, r: Pose, p: Pose)
    requires Compose(q, p) == Compose(r, p)
    ensures q == r
  {
    hide Compose, Invert;
    ComposeAssoc(q, p, Invert(p));
    ComposeAssoc(r, p, Invert(p));
    InvertUndoes(p);
    StillIsNeutral(q);
    StillIsNeutral(r);
  }

  // ---------------------------------------------------------------- every transform that can be built

  /** A history of calls on a transform; an added transform has a history of its own. */
  datatype History =
    | Created
    | Translated(h: History, index: nat, amount: real)
    | Rotated(h: History, index: nat, turn: Turn)
    | Added(h: History, other: History, inverted: bool)
    | Inverted(h: History)

  predicate IndicesValid(h: History) {
    match h
    case Created => true
    case Translated(g, i, _) => i < 3 && IndicesValid(g)
    case Rotated(g, i, _) => i < 3 && IndicesValid(g)
    case Added(g, other, _) => IndicesValid(g) && IndicesValid(other)
    case Inverted(g) => IndicesValid(g)
  }

  /** The matrix after the calls, computed as the code does. The inverse of a singular matrix, which
      the library leaves undefined, is here the matrix itself. */
  function BuiltMatrix(h: History): Mat4
    requires IndicesValid(h)
  {
    match h
    case Created => IDENTITY
    case Translated(g, _, _) => BuiltMatrix(g)
    case Rotated(g, i, t) => Mul(BuiltMatrix(g), AxisTurn(i, t))
    case Added(g, other, inverted) =>
      Mul(if inverted then LibraryInverse(BuiltMatrix(other)) else BuiltMatrix(other), BuiltMatrix(g))
    case Inverted(g) => LibraryInverse(BuiltMatrix(g))
  }

  function LibraryInverse(m: Mat4): Mat4 {
    if Det4(m) == 0.0 then m else Inverse(m)
  }

  lemma LibraryInverseOfRotation(m: Rotation)
    ensures LibraryInverse(m) == Transpose(m) && IsRotation(Transpose(m))
  {
    hide IsRotation, Inverse, Det4;
    InverseOfRotation(m);
  }

  ghost predicate Inverts(m: Mat4) {
    IsRotation(m) && IsProper(m) && Det4(m) == 1.0 && LibraryInverse(m) == Transpose(m)
  }

  /** After every history the matrix is a proper rotation: a singular matrix is never inverted, and
      every inverse is a transpose. */
  lemma {:induction false} BuiltIsRotation(h: History)
    requires IndicesValid(h)
    ensures Inverts(BuiltMatrix(h))
  {
    hide IsRotation, IsProper, Mul, AxisTurn, LibraryInverse, Det4, Transpose, Inverse;
    match h {
    case Created =>
      assert IsRotation(Unit());
    case Translated(g, _, _) =>
      BuiltIsRotation(g);
    case Rotated(g, i, t) =>
      BuiltIsRotation(g);
      AxisTurnIsRotation(i, t);
      ProductIsRotation(BuiltMatrix(g), AxisTurn(i, t));
    case Added(g, other, inverted) =>
      BuiltIsRotation(g);
      BuiltIsRotation(other);
      LibraryInverseOfRotation(BuiltMatrix(other));
      ProductIsRotation(if inverted then LibraryInverse(BuiltMatrix(other)) else BuiltMatrix(other), BuiltMatrix(g));
    case Inverted(g) =>
      BuiltIsRotation(g);
      LibraryInverseOfRotation(BuiltMatrix(g));
    }
    InverseOfRotation(BuiltMatrix(h));
    RotationIsProper(BuiltMatrix(h));
    LibraryInverseOfRotation(BuiltMatrix(h));
  }
}
