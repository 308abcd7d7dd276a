/**
 What transforms do to vectors. The code multiplies matrices in one order only; here the order is
 told from what the products do: a transform that is added moves what the one it is added to moved.
 */
module Motions {
  import opened Wrappers
  import opened Matrices
  import opened Rotations
  import opened Poses
  import opened Paths

  // ---------------------------------------------------------------- products and turns

  /** A product moves a vector by its second factor and then by its first. */
  lemma ProductMoves(m: Mat4, n: Mat4, v: Vec4)
    ensures MulCol(Mul(m, n), v) == MulCol(m, MulCol(n, v))
  {
    hide Dot, RowMul;
    RowColAssoc(m.r0, n, v);
    RowColAssoc(m.r1, n, v);
    RowColAssoc(m.r2, n, v);
    RowColAssoc(m.r3, n, v);
  }

  lemma RowColAssoc(r: Vec4, n: Mat4, v: Vec4)
    ensures Dot(RowMul(r, n), v) == Dot(r, MulCol(n, v))
  {
    hide Dot, RowMul, MulCol;
    DotAssoc(r, n, v);
  }

  const X_AXIS := Vec4(1.0, 0.0, 0.0, 0.0)
  const Y_AXIS := Vec4(0.0, 1.0, 0.0, 0.0)
  const Z_AXIS := Vec4(0.0, 0.0, 1.0, 0.0)

  /** Where the axes go. */
  datatype Axes = Axes(x: Vec4, y: Vec4, z: Vec4)

  predicate Moves(m: Mat4, to: Axes) {
    MulCol(m, X_AXIS) == to.x && MulCol(m, Y_AXIS) == to.y && MulCol(m, Z_AXIS) == to.z
  }

  /** Index 0 turns about x, 1 about y, 2 about z: that axis stays, and the next one in the order
      x, y, z, x turns towards the one after it. */
  predicate TurnAboutAxes(t: Turn) {
    hide OnCircle, Moves, AxisTurn;
    && Moves(AxisTurn(0, t), Axes(X_AXIS, Vec4(0.0, t.c, t.s, 0.0), Vec4(0.0, -t.s, t.c, 0.0)))
    && Moves(AxisTurn(1, t), Axes(Vec4(t.c, 0.0, -t.s, 0.0), Y_AXIS, Vec4(t.s, 0.0, t.c, 0.0)))
    && Moves(AxisTurn(2, t), Axes(Vec4(t.c, t.s, 0.0, 0.0), Vec4(-t.s, t.c, 0.0, 0.0), Z_AXIS))
  }

  lemma TurnsAbout(t: Turn)
    ensures TurnAboutAxes(t)
  {
    hide OnCircle, Moves;
    ColumnsOf(AxisTurn(0, t));
    ColumnsOf(AxisTurn(1, t));
    ColumnsOf(AxisTurn(2, t));
  }

  lemma ColumnsOf(m: Mat4)
    ensures Moves(m, Axes(Transpose(m).r0, Transpose(m).r1, Transpose(m).r2))
  {
  }

  /** The turns of three angles: about z first, then y, then x. */
  lemma EulerMoves(e: Euler, v: Vec4)
    ensures MulCol(EulerMatrix(e), v) == MulCol(AxisTurn(0, e.x), MulCol(AxisTurn(1, e.y), MulCol(AxisTurn(2, e.z), v)))
  {
    hide MulCol, Mul, AxisTurn, OnCircle;
    var x, y, z := AxisTurn(0, e.x), AxisTurn(1, e.y), AxisTurn(2, e.z);
    MulIdentity(x);
    ProductMoves(Mul(x, y), z, v);
    ProductMoves(x, y, MulCol(z, v));
  }

  // ---------------------------------------------------------------- every history of calls

  /** The value of a transform after the calls. */
  function ValueOf(h: History): Pose
    requires IndicesValid(h)
  {
    match h
    case Created => Still()
    case Translated(g, i, amount) => ValueOf(g).(tran := With(ValueOf(g).tran, i, amount))
    case Rotated(g, i, t) => ValueOf(g).(rot := Turned(ValueOf(g).rot, i, Some(t)))
    case Added(g, other, inverted) =>
      Compose(if inverted then Invert(ValueOf(other)) else ValueOf(other), ValueOf(g))
    case Inverted(g) => Invert(ValueOf(g))
  }

  /** Its matrix is the one that the code's multiplications, in the code's order, build. */
  lemma {:induction false} ValueIsBuilt(h: History)
    requires IndicesValid(h)
    ensures ValueOf(h).rot == BuiltMatrix(h)
  {
    hide IsRotation, Mul, AxisTurn, LibraryInverse, Inverse, OnCircle;
    match h {
    case Created =>
    case Translated(g, _, _) =>
      ValueIsBuilt(g);
    case Rotated(g, _, _) =>
      ValueIsBuilt(g);
    case Added(g, other, _) =>
      ValueIsBuilt(g);
      ValueIsBuilt(other);
      InverseOfRotation(ValueOf(other).rot);
      LibraryInverseOfRotation(ValueOf(other).rot);
    case Inverted(g) =>
      ValueIsBuilt(g);
      InverseOfRotation(ValueOf(g).rot);
      LibraryInverseOfRotation(ValueOf(g).rot);
    }
  }

  // ---------------------------------------------------------------- paths and links

  /** Where the vector goes along the path, one edge after the other; an edge walked backwards undoes
      the turn of its matrix. */
  function MovedAlong(path: seq<PathElement>, v: Vec4): Vec4 {
    if path == [] then v
    else
      var n := |path| - 1;
      var before := MovedAlong(path[..n], v);
      if path[n].NodeElement? then before
      else
        var m := PoseOf(path[n].props).rot;
        MulCol(if path[n].forward then m else Transpose(m), before)
  }

  /** The sum of a translation component over the path, backward edges counted negative. */
  function SumAlong(path: seq<PathElement>, i: nat): real
    requires i < 3
  {
    if path == [] then 0.0
    else
      var n := |path| - 1;
      var before := SumAlong(path[..n], i);
      if path[n].NodeElement? then before
      else
        var p := path[n].props;
        var amount := Or(if i == 0 then p.tx else if i == 1 then p.ty else p.tz, 0.0);
        if path[n].forward then before + amount else before - amount
  }

  /** The transform of a path turns every vector as its edges do, the first edge first. */
  lemma {:induction false} FoldMoves(path: seq<PathElement>, v: Vec4)
    ensures MulCol(Fold(path).rot, v) == MovedAlong(path, v)
  {
    hide IsRotation, Mul, MulCol, PoseOf, Inverse, Transpose, OnCircle;
    if path == [] {
      IdentityMoves(v);
    } else {
      var n := |path| - 1;
      FoldMoves(path[..n], v);
      if path[n].EdgeElement? {
        InverseOfRotation(PoseOf(path[n].props).rot);
        ProductMoves(EdgePose(path[n]).rot, Fold(path[..n]).rot, v);
      }
    }
  }

  lemma IdentityMoves(v: Vec4)
    ensures MulCol(IDENTITY, v) == v
  {
  }

  /** And its translation is the sum of theirs. */
  lemma {:induction false} FoldSums(path: seq<PathElement>, i: nat)
    requires i < 3
    ensures At(Fold(path).tran, i) == SumAlong(path, i)
  {
    hide IsRotation, Compose, Invert, PoseOf, OnCircle, Still;
    if path == [] {
      NothingSummed(i);
    } else {
      var n := |path| - 1;
      FoldSums(path[..n], i);
      if path[n].EdgeElement? {
        OneMoreSummed(path[n].props, path[n].forward, Fold(path[..n]), i);
      }
    }
  }

  lemma NothingSummed(i: nat)
    requires i < 3
    ensures At(Still().tran, i) == 0.0
  {
  }

  lemma OneMoreSummed(p: EdgeProps, forward: bool, before: Pose, i: nat)
    requires i < 3
    ensures var amount := Or(if i == 0 then p.tx else if i == 1 then p.ty else p.tz, 0.0);
      At(Compose(EdgePose(EdgeElement(p, forward)), before).tran, i) ==
        if forward then At(before.tran, i) + amount else At(before.tran, i) - amount
  {
    hide IsRotation, Mul, Inverse, OnCircle, Turned, Plus, Minus, Or;
    var q := PoseOf(p);
    AtPlus(before.tran, q.tran, i);
    AtPlus(before.tran, Minus(q.tran), i);
    AtMinus(q.tran, i);
  }

  lemma AtPlus(a: Vec3, b: Vec3, i: nat)
    requires i < 3
    ensures At(Plus(a, b), i) == At(a, i) + At(b, i)
  {
  }

  lemma AtMinus(a: Vec3, i: nat)
    requires i < 3
    ensures At(Minus(a), i) == -At(a, i)
  {
  }

  /** The transform of a stored edge turns by its z angle, then y, then x; a missing angle is no turn. */
  lemma EdgeMoves(p: EdgeProps, v: Vec4)
    ensures MulCol(PoseOf(p).rot, v) ==
      MulCol(AxisTurn(0, Or(p.rx, NO_TURN)), MulCol(AxisTurn(1, Or(p.ry, NO_TURN)),
        MulCol(AxisTurn(2, Or(p.rz, NO_TURN)), v)))
  {
    hide Mul, MulCol, AxisTurn, IsRotation, OnCircle;
    NoTurnStays();
    var e := Euler(Or(p.rx, NO_TURN), Or(p.ry, NO_TURN), Or(p.rz, NO_TURN));
    var x := Turned(Unit(), 0, p.rx);
    MulIdentity(IDENTITY);
    MulIdentity(x);
    MulIdentity(Turned(x, 1, p.ry));
    EulerMoves(e, v);
  }

  lemma NoTurnStays()
    ensures AxisTurn(0, NO_TURN) == IDENTITY && AxisTurn(1, NO_TURN) == IDENTITY && AxisTurn(2, NO_TURN) == IDENTITY
  {
  }

  /** A link's transform takes where the device's transform in the first scene puts a vector to where
      the one in the second scene puts it. */
  lemma LinkMoves(m1: Rotation, m2: Rotation, v: Vec4)
    ensures MulCol(Mul(m2, Transpose(m1)), MulCol(m1, v)) == MulCol(m2, v)
  {
    hide Mul, MulCol, IsRotation, Inverse, Transpose;
    InverseOfRotation(m1);
    ProductMoves(Mul(m2, Transpose(m1)), m1, v);
    MulAssoc(m2, Transpose(m1), m1);
    MulIdentity(m2);
  }
}
