/**
 The Transform object, whose methods overwrite its translation vector, matrix, flags and cached
 Euler angles, and the loop that folds a path of stored edges into one transform.

 The library call that extracts Euler angles from a matrix is a parameter: the angles it returned,
 of which only that they rebuild the matrix is known.
 */
module Transforms {
  import opened Matrices
  import opened Rotations
  import opened Poses

  predicate TurnAlike(angles: Euler, m: Mat4, v: Vec4) {
    RowMul(v, EulerMatrix(angles)) == RowMul(v, m)
  }

  /** The angles rebuild the matrix: turning by them moves every vector as the matrix does. */
  ghost predicate Extracts(angles: Euler, m: Mat4) {
    forall v :: TurnAlike(angles, m, v)
  }

  lemma ExtractsIsRebuilds(angles: Euler, m: Mat4)
    ensures Extracts(angles, m) <==> EulerMatrix(angles) == m
  {
    hide RowMul, EulerMatrix, OnCircle;
    var e := EulerMatrix(angles);
    if Extracts(angles, m) {
      var a, b, c, d := IDENTITY.r0, IDENTITY.r1, IDENTITY.r2, IDENTITY.r3;
      assert TurnAlike(angles, m, a) && TurnAlike(angles, m, b) && TurnAlike(angles, m, c) && TurnAlike(angles, m, d);
      MulIdentity(e);
      MulIdentity(m);
    }
  }

  /** The first i components of a, the others of b. */
  function FirstOf(i: nat, a: Vec3, b: Vec3): Vec3 {
    Vec3(if 0 < i then a.x else b.x, if 1 < i then a.y else b.y, if 2 < i then a.z else b.z)
  }

  /** What one round of the loop in add_transform writes. */
  function Moved(a: real, b: real, inverted: bool): real {
    if inverted then a - b else a + b
  }

  function Shift(b: Vec3, inverted: bool): Vec3 {
    if inverted then Minus(b) else b
  }

  lemma MoveOne(i: nat, a: Vec3, b: Vec3, inverted: bool)
    requires i < 3
    ensures var goal := Plus(a, Shift(b, inverted));
      && At(FirstOf(i, goal, a), i) == At(a, i)
      && With(FirstOf(i, goal, a), i, Moved(At(a, i), At(b, i), inverted)) == FirstOf(i + 1, goal, a)
  {
  }

  lemma NegateOne(i: nat, a: Vec3)
    requires i < 3
    ensures With(FirstOf(i, Minus(a), a), i, -1.0 * At(FirstOf(i, Minus(a), a), i)) == FirstOf(i + 1, Minus(a), a)
  {
  }

  lemma FirstOfEnds(a: Vec3, b: Vec3)
    ensures FirstOf(0, a, b) == b && FirstOf(3, a, b) == a
  {
  }

  lemma ZeroPlusZero()
    ensures Plus(ZERO, ZERO) == ZERO
  {
  }

  lemma MinusIs(a: Vec3)
    ensures Minus(a) == Vec3(-a.x, -a.y, -a.z)
  {
  }

  lemma MinusZero()
    ensures Minus(ZERO) == ZERO
  {
  }

  lemma FirstOfSame(i: nat, a: Vec3)
    ensures FirstOf(i, a, a) == a
  {
  }

  lemma ZeroShift(i: nat, inverted: bool)
    ensures FirstOf(i, Plus(ZERO, Shift(ZERO, inverted)), ZERO) == ZERO
  {
    hide Plus, Minus, FirstOf;
    ZeroPlusZero();
    MinusZero();
    FirstOfSame(i, ZERO);
  }

  lemma NoShift(a: Vec3, inverted: bool)
    ensures Plus(a, Shift(ZERO, inverted)) == a
  {
    hide Minus;
    MinusZero();
  }

  class Transform {
    var tran: Vec3
    var transform: Mat4
    var rot: Euler
    var hasTranslation: bool
    var hasRotation: bool
    var stale: bool

    /** The matrix is a rotation, cached angles that are not stale rebuild it, and a flag that is
        not set means that part is still the neutral one. */
    ghost predicate Valid()
      reads this
    {
      && IsRotation(transform)
      && (!stale ==> Extracts(rot, transform))
      && (!hasTranslation ==> tran == ZERO)
      && (!hasRotation ==> transform == IDENTITY)
    }

    ghost function Value(): Pose
      reads this
      requires Valid()
    {
      Pose(tran, transform)
    }

    constructor ()
      ensures Valid() && Value() == Still() && !hasTranslation && !hasRotation
    {
      hide Mul, AxisTurn, Inverse, Det4, EulerMatrix, IsRotation, Transpose, Minor, Extracts, OnCircle;
      tran := ZERO;
      transform := Unit();
      rot := Euler(NO_TURN, NO_TURN, NO_TURN);
      hasTranslation, hasRotation, stale := false, false, true;
    }

    method UpdateVectors(angles: Euler)
      requires Valid() && Extracts(angles, transform)
      modifies this`stale, this`rot
      ensures Valid() && !stale && rot == angles
    {
      stale := false;
      rot := angles;
    }

    /** Reading a translation refreshes the angles when they are stale. */
    method Translation(index: nat, angles: Euler) returns (amount: real)
      requires Valid() && index < 3 && (stale ==> Extracts(angles, transform))
      modifies this`stale, this`rot
      ensures Valid() && !stale && amount == At(tran, index)
    {
      if stale {
        UpdateVectors(angles);
      }
      amount := At(tran, index);
    }

    /** The angles read are ones that rebuild the matrix, whatever happened since the last reading. */
    method Angles(angles: Euler) returns (e: Euler)
      requires Valid() && (stale ==> Extracts(angles, transform))
      modifies this`stale, this`rot
      ensures Valid() && !stale && Extracts(e, transform)
      ensures !old(stale) ==> e == old(rot)
    {
      if stale {
        UpdateVectors(angles);
      }
      e := rot;
    }

    method Translate(index: nat, amount: real)
      requires Valid() && index < 3
      modifies this`tran, this`hasTranslation
      ensures Valid() && hasTranslation && tran == With(old(tran), index, amount)
    {
      hide Mul, AxisTurn, Inverse, Det4, EulerMatrix, IsRotation, Transpose, Minor, Extracts, OnCircle;
      tran := With(tran, index, amount);
      hasTranslation := true;
    }

    method Rotate(index: nat, turn: Turn)
      requires Valid() && index < 3
      modifies this`transform, this`stale, this`hasRotation
      ensures Valid() && hasRotation && transform == Mul(old(transform), AxisTurn(index, turn))
    {
      hide Mul, AxisTurn, Inverse, Det4, EulerMatrix, IsRotation, Transpose, Minor, Extracts, OnCircle;
      AxisTurnIsRotation(index, turn);
      ProductIsRotation(transform, AxisTurn(index, turn));
      transform := Mul(transform, AxisTurn(index, turn));
      stale := true;
      hasRotation := true;
    }

    /** The argument may be the transform itself. */
    method AddTransform(t: Transform, inverted: bool, angles: Euler)
      requires Valid() && t.Valid() && (t.stale ==> Extracts(angles, t.transform))
      modifies this, t`stale, t`rot
      ensures Valid() && t.Valid()
      ensures Value() == Compose(if inverted then Invert(old(t.Value())) else old(t.Value()), old(Value()))
      ensures transform == Mul(if inverted then Transpose(old(t.transform)) else old(t.transform), old(transform))
      ensures Summed(tran, old(tran), old(t.tran), inverted)
      ensures t != this ==> t.Value() == old(t.Value())
      ensures hasTranslation == (old(hasTranslation) || old(t.hasTranslation))
      ensures hasRotation == (old(hasRotation) || old(t.hasRotation))
    {
      hide Mul, AxisTurn, Inverse, Det4, EulerMatrix, IsRotation, Transpose, Minor, Extracts, OnCircle;
      hide Plus, Minus, FirstOf, With, At, Shift, Moved, Summed;
      ghost var mine, other := tran, t.tran;
      ghost var goal := Plus(mine, Shift(other, inverted));
      var turned := t.transform;
      InverseOfRotation(turned);
      FirstOfEnds(goal, mine);
      for i := 0 to 3
        invariant t.Valid() && (t.stale ==> Extracts(angles, t.transform))
        invariant tran == FirstOf(i, goal, mine)
        invariant t != this ==> t.tran == other
        invariant transform == old(transform) && t.transform == turned
        invariant hasTranslation == old(hasTranslation) && hasRotation == old(hasRotation)
        invariant t.hasTranslation == old(t.hasTranslation) && t.hasRotation == old(t.hasRotation)
      {
        MoveOne(i, mine, other, inverted);
        ZeroShift(i + 1, inverted);
        var amount := t.Translation(i, angles);
        tran := With(tran, i, Moved(At(tran, i), amount, inverted));
      }
      ghost var t0 := if inverted then Invert(old(t.Value())) else old(t.Value());
      assert tran == Plus(mine, t0.tran) by { ShiftIs(old(t.Value()), inverted); }
      var other4 := if inverted then Inverse(turned) else turned;
      ProductIsRotation(other4, transform);
      transform := Mul(other4, transform);
      if t.hasTranslation {
        hasTranslation := true;
      }
      if t.hasRotation {
        hasRotation := true;
      }
      stale := true;
      assert !hasRotation ==> transform == IDENTITY by { NeutralParts(); }
      NoShift(mine, inverted);
      SumIs(mine, other, inverted);
    }

    method InvertInPlace()
      requires Valid()
      modifies this
      ensures Valid() && Value() == Invert(old(Value()))
      ensures transform == Transpose(old(transform)) && tran == Vec3(-old(tran.x), -old(tran.y), -old(tran.z))
      ensures hasTranslation == old(hasTranslation) && hasRotation == old(hasRotation)
    {
      hide Mul, AxisTurn, Inverse, Det4, EulerMatrix, IsRotation, Transpose, Minor, Extracts, OnCircle;
      hide Minus, FirstOf, With, At;
      ghost var mine := tran;
      FirstOfEnds(Minus(mine), mine);
      for i := 0 to 3
        invariant tran == FirstOf(i, Minus(mine), mine)
        invariant transform == old(transform)
        invariant hasTranslation == old(hasTranslation) && hasRotation == old(hasRotation)
      {
        NegateOne(i, mine);
        tran := With(tran, i, -1.0 * At(tran, i));
      }
      stale := true;
      InverseOfRotation(transform);
      transform := Inverse(transform);
      NeutralParts();
      MinusZero();
      MinusIs(mine);
    }
  }

  predicate Summed(sum: Vec3, a: Vec3, b: Vec3, inverted: bool) {
    if inverted then sum.x == a.x - b.x && sum.y == a.y - b.y && sum.z == a.z - b.z
    else sum.x == a.x + b.x && sum.y == a.y + b.y && sum.z == a.z + b.z
  }

  lemma SumIs(a: Vec3, b: Vec3, inverted: bool)
    ensures Summed(Plus(a, Shift(b, inverted)), a, b, inverted)
  {
  }

  lemma ShiftIs(p: Pose, inverted: bool)
    ensures (if inverted then Invert(p) else p).tran == Shift(p.tran, inverted)
  {
  }

  lemma NeutralParts()
    ensures Mul(IDENTITY, IDENTITY) == IDENTITY
    ensures Det4(IDENTITY) == 1.0 && Inverse(IDENTITY) == IDENTITY
  {
    hide Mul, Inverse, Det4, IsRotation;
    UnitIsRotation();
    MulIdentity(IDENTITY);
    InverseOfRotation(IDENTITY);
    assert Transpose(IDENTITY) == IDENTITY;
  }
}
