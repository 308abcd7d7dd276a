/**
 The transform of a scene or device as the parser builds it: translate and rotate on a new Transform
 for each number it meets. `turn` gives an angle's cosine and sine.
 */
module MessageTransforms {
  import opened Wrappers
  import opened Matrices
  import opened Rotations
  import opened Poses
  import opened Transforms
  import opened Paths
  import opened Json
  import opened SceneLists
  import opened SceneListProofs

  type Turning = real -> Turn

  /** The value of a Transform and its two flags. */
  datatype Placed = Placed(pose: Pose, hasTranslation: bool, hasRotation: bool)

  function Fresh(): Placed {
    Placed(Still(), false, false)
  }

  // ---------------------------------------------------------------- what the parser does

  function Translated(p: Placed, i: nat, amount: real): Placed {
    if i < 3 then p.(pose := p.pose.(tran := With(p.pose.tran, i, amount)), hasTranslation := true) else p
  }

  function Rotated(p: Placed, i: nat, t: Turn): Placed {
    if i < 3 then p.(pose := p.pose.(rot := Turned(p.pose.rot, i, Some(t))), hasRotation := true) else p
  }

  function TranslateAll(p: Placed, items: seq<Tree>): Placed {
    if items == [] then p
    else
      var n := |items| - 1;
      var before := TranslateAll(p, items[..n]);
      if Amount(items[n]).Some? then Translated(before, n, Amount(items[n]).value) else before
  }

  function RotateAll(p: Placed, items: seq<Tree>, turn: Turning): Placed {
    if items == [] then p
    else
      var n := |items| - 1;
      var before := RotateAll(p, items[..n], turn);
      if Amount(items[n]).Some? then Rotated(before, n, turn(Amount(items[n]).value)) else before
  }

  function PlacedFrom(m: seq<Member>, turn: Turning): Placed {
    if m == [] then Fresh()
    else
      var n := |m| - 1;
      var p := PlacedFrom(m[..n], turn);
      if m[n].name == "translation" then TranslateAll(p, ItemsOf(Some(m[n].value)))
      else if m[n].name == "rotation" then RotateAll(p, ItemsOf(Some(m[n].value)), turn)
      else p
  }

  ghost predicate Shows(t: Transform, p: Placed)
    reads t
  {
    t.Valid() && t.Value() == p.pose && t.hasTranslation == p.hasTranslation && t.hasRotation == p.hasRotation
  }

  /** The loop over the items of one array. Items past the third are skipped. */
  method PutItems(t: Transform, items: seq<Tree>, rotation: bool, turn: Turning, ghost p: Placed)
    requires Shows(t, p)
    modifies t
    ensures Shows(t, if rotation then RotateAll(p, items, turn) else TranslateAll(p, items))
  {
    hide Mul, AxisTurn, IsRotation, OnCircle, Extracts, EulerMatrix, Amount, With;
    for i := 0 to |items|
      invariant Shows(t, if rotation then RotateAll(p, items[..i], turn) else TranslateAll(p, items[..i]))
    {
      assert items[..i + 1][..i] == items[..i];
      if Amount(items[i]).Some? && i < 3 {
        if rotation {
          t.Rotate(i, turn(Amount(items[i]).value));
        } else {
          t.Translate(i, Amount(items[i]).value);
        }
      }
    }
    assert items[..|items|] == items;
  }

  method ReadTransform(m: seq<Member>, turn: Turning) returns (t: Transform)
    ensures fresh(t) && Shows(t, PlacedFrom(m, turn))
  {
    hide Shows, TranslateAll, RotateAll;
    t := NewTransform();
    for i := 0 to |m|
      invariant fresh(t) && Shows(t, PlacedFrom(m[..i], turn))
    {
      assert m[..i + 1][..i] == m[..i];
      ghost var p := PlacedFrom(m[..i], turn);
      if m[i].name == "translation" {
        PutItems(t, ItemsOf(Some(m[i].value)), false, turn, p);
      } else if m[i].name == "rotation" {
        PutItems(t, ItemsOf(Some(m[i].value)), true, turn, p);
      }
    }
    assert m[..|m|] == m;
  }

  method NewTransform() returns (t: Transform)
    ensures fresh(t) && Shows(t, Fresh())
  {
    t := new Transform();
  }

  // ---------------------------------------------------------------- the angles and the matrix

  function Angles(t: Triple, turn: Turning): Euler {
    Euler(turn(t.x), turn(t.y), turn(t.z))
  }

  /** What an array of angles multiplies onto the matrix. */
  function MatrixOf(t: Option<Triple>, turn: Turning): Mat4 {
    if t.None? then IDENTITY else EulerMatrix(Angles(t.value, turn))
  }

  lemma NoTurnIsIdentity(i: nat)
    requires i < 3
    ensures AxisTurn(i, NO_TURN) == IDENTITY
  {
  }

  /** Components from n on are still zero. */
  predicate ZeroFrom(t: Option<Triple>, n: nat) {
    t.Some? ==> (n <= 0 ==> t.value.x == 0.0) && (n <= 1 ==> t.value.y == 0.0) && (n <= 2 ==> t.value.z == 0.0)
  }

  lemma PutKeepsZeros(t: Option<Triple>, n: nat, amount: real)
    requires ZeroFrom(t, n)
    ensures ZeroFrom(Put(t, n, amount), n + 1)
  {
  }

  /** One more angle, after those before it, is one more turn. */
  lemma OneMoreTurn(t: Option<Triple>, n: nat, amount: real, turn: Turning)
    requires ZeroFrom(t, n) && n < 3 && turn(0.0) == NO_TURN
    ensures MatrixOf(Put(t, n, amount), turn) == Mul(MatrixOf(t, turn), AxisTurn(n, turn(amount)))
  {
    hide Mul, AxisTurn;
    NoTurnIsIdentity(0);
    NoTurnIsIdentity(1);
    NoTurnIsIdentity(2);
    var was := if t.Some? then t.value else Triple(0.0, 0.0, 0.0);
    MulIdentity(IDENTITY);
    MulIdentity(AxisTurn(n, turn(amount)));
    var x := AxisTurn(0, turn(was.x));
    MulIdentity(x);
    var xy := Mul(x, AxisTurn(1, turn(was.y)));
    MulIdentity(xy);
    MulIdentity(Mul(x, AxisTurn(n, turn(amount))));
  }

  /** Rotating by an array of numbers multiplies by the matrix of its angles, whatever was before. */
  lemma {:induction false} RotateAllIs(p: Placed, items: seq<Tree>, turn: Turning)
    requires turn(0.0) == NO_TURN
    ensures var t := PutAll(None, items); var q := RotateAll(p, items, turn);
      && ZeroFrom(t, |items|) && q.pose.rot == Mul(p.pose.rot, MatrixOf(t, turn))
      && q.pose.tran == p.pose.tran && q.hasTranslation == p.hasTranslation
      && q.hasRotation == (p.hasRotation || t.Some?)
  {
    hide Mul, AxisTurn, IsRotation, Amount, EulerMatrix, MatrixOf, Put, ZeroFrom;
    if items == [] {
      assert MatrixOf(None, turn) == IDENTITY && ZeroFrom(None, 0) by { NothingPut(turn); }
      MulIdentity(p.pose.rot);
    } else {
      var n := |items| - 1;
      RotateAllIs(p, items[..n], turn);
      var before := PutAll(None, items[..n]);
      ZerosLater(before, n);
      if Amount(items[n]).Some? {
        RotateOneMore(p, before, RotateAll(p, items[..n], turn), n, Amount(items[n]).value, turn);
      }
    }
  }

  lemma NothingPut(turn: Turning)
    ensures MatrixOf(None, turn) == IDENTITY && ZeroFrom(None, 0)
  {
  }

  lemma ZerosLater(t: Option<Triple>, n: nat)
    requires ZeroFrom(t, n)
    ensures ZeroFrom(t, n + 1)
  {
  }

  lemma RotateOneMore(p: Placed, before: Option<Triple>, q: Placed, n: nat, amount: real, turn: Turning)
    requires turn(0.0) == NO_TURN && ZeroFrom(before, n) && q.pose.rot == Mul(p.pose.rot, MatrixOf(before, turn))
    ensures ZeroFrom(Put(before, n, amount), n + 1)
    ensures Rotated(q, n, turn(amount)).pose.rot == Mul(p.pose.rot, MatrixOf(Put(before, n, amount), turn))
    ensures Rotated(q, n, turn(amount)).hasRotation == (q.hasRotation || (n < 3 && Put(before, n, amount).Some?))
    ensures Put(before, n, amount).Some? <==> before.Some? || n < 3
  {
    hide Mul, AxisTurn, IsRotation, MatrixOf;
    PutKeepsZeros(before, n, amount);
    if n < 3 {
      OneMoreTurn(before, n, amount, turn);
      MulAssoc(p.pose.rot, MatrixOf(before, turn), AxisTurn(n, turn(amount)));
    }
  }

  lemma {:induction false} TranslateAllIs(p: Placed, items: seq<Tree>)
    ensures var q := TranslateAll(p, items);
      && q.pose.rot == p.pose.rot && q.hasRotation == p.hasRotation
  {
    hide Amount;
    if items != [] {
      TranslateAllIs(p, items[..|items| - 1]);
    }
  }

  // ---------------------------------------------------------------- what the members mean

  /** The matrices of all rotation members, in their order. */
  function Product(m: seq<Member>, turn: Turning): Mat4 {
    if m == [] then IDENTITY
    else
      var n := |m| - 1;
      var before := Product(m[..n], turn);
      if m[n].name == "rotation"
      then Mul(before, MatrixOf(PutAll(None, ItemsOf(Some(m[n].value))), turn))
      else before
  }

  /** Whatever the members: every rotation among them, a second one too, multiplies the matrix by that
      of its three angles; no other member touches it. */
  lemma {:induction false} RotationsMultiply(m: seq<Member>, turn: Turning)
    requires turn(0.0) == NO_TURN
    ensures PlacedFrom(m, turn).pose.rot == Product(m, turn)
  {
    hide Mul, IsRotation, RotateAll, TranslateAll, PutAll, MatrixOf;
    if m != [] {
      var n := |m| - 1;
      RotationsMultiply(m[..n], turn);
      var p, items := PlacedFrom(m[..n], turn), ItemsOf(Some(m[n].value));
      RotateAllIs(p, items, turn);
      TranslateAllIs(p, items);
    }
  }

  // ---------------------------------------------------------------- printing and parsing a Transform

  /** A flag that is not set means that its part is neutral. */
  predicate FlagsOk(p: Placed) {
    && (!p.hasTranslation ==> p.pose.tran == ZERO)
    && (!p.hasRotation ==> p.pose.rot == IDENTITY)
  }

  /** What is printed of a transform: the parts whose flags are set, the rotation as the angles that
      were extracted from its matrix. */
  function Printed(p: Placed, angles: Triple): Placement {
    Placement(if p.hasTranslation then Some(Triple(p.pose.tran.x, p.pose.tran.y, p.pose.tran.z)) else None,
              if p.hasRotation then Some(angles) else None)
  }

  /** Printing a transform and parsing what was printed gives the same translation, the same matrix
      and the same flags, when the extracted angles turn as the matrix does. */
  lemma TransformRoundTrips(p: Placed, angles: Triple, turn: Turning)
    requires FlagsOk(p) && turn(0.0) == NO_TURN && (p.hasRotation ==> Extracts(Angles(angles, turn), p.pose.rot))
    ensures PlacedFrom(MembersOf(PlacementTree(Printed(p, angles))), turn) == p
  {
    hide PlacedFrom, Extracts, Fresh, RotateAll, TranslateAll, Angles, IsRotation;
    var first, all := PrintedMembers(p, angles);
    TranslationIsRead(p, first, turn);
    if p.hasRotation {
      RotationIsRead(p, PlacedFrom(first, turn), angles, turn);
      LastIsRotation(first, all, angles, turn);
    }
  }

  lemma LastIsRotation(first: seq<Member>, all: seq<Member>, angles: Triple, turn: Turning)
    requires all == first + [Member("rotation", TripleTree(angles))]
    ensures PlacedFrom(all, turn) == RotateAll(PlacedFrom(first, turn), TripleTree(angles).items, turn)
  {
    hide RotateAll, TranslateAll, TripleTree;
    assert all[..|all| - 1] == first;
    assert ItemsOf(Some(TripleTree(angles))) == TripleTree(angles).items by { TripleItems(angles); }
  }

  lemma TripleItems(t: Triple)
    ensures TripleTree(t).Arr? && ItemsOf(Some(TripleTree(t))) == TripleTree(t).items
  {
  }

  /** The members that are printed, the rotation last. */
  lemma PrintedMembers(p: Placed, angles: Triple) returns (first: seq<Member>, all: seq<Member>)
    ensures all == MembersOf(PlacementTree(Printed(p, angles)))
    ensures first == if !p.hasTranslation then []
                     else [Member("translation", TripleTree(Triple(p.pose.tran.x, p.pose.tran.y, p.pose.tran.z)))]
    ensures all == if p.hasRotation then first + [Member("rotation", TripleTree(angles))] else first
  {
    hide TripleTree, IsRotation;
    var fs := PlacementFields(Printed(p, angles));
    assert fs[..1][..0] == [] && fs[..2] == fs && Keep(fs[..1][..0]) == [];
    first, all := Keep(fs[..1]), Keep(fs);
  }

  lemma TranslationIsRead(p: Placed, first: seq<Member>, turn: Turning)
    requires FlagsOk(p)
    requires first == if !p.hasTranslation then []
                      else [Member("translation", TripleTree(Triple(p.pose.tran.x, p.pose.tran.y, p.pose.tran.z)))]
    ensures PlacedFrom(first, turn) == Placed(Pose(p.pose.tran, Unit()), p.hasTranslation, false)
    ensures Unit() == IDENTITY
  {
    hide IsRotation;
    if p.hasTranslation {
      var v := p.pose.tran;
      var items := TripleTree(Triple(v.x, v.y, v.z)).items;
      assert first[..0] == [];
      assert items[..2] == [Real(v.x), Real(v.y)] && items[..2][..1] == [Real(v.x)] && items[..2][..1][..0] == [];
      assert TranslateAll(Fresh(), items[..2][..1]) == Placed(Pose(Vec3(v.x, 0.0, 0.0), Unit()), true, false);
      assert TranslateAll(Fresh(), items[..2]) == Placed(Pose(Vec3(v.x, v.y, 0.0), Unit()), true, false);
    }
  }

  lemma RotationIsRead(p: Placed, q: Placed, angles: Triple, turn: Turning)
    requires q.pose.rot == IDENTITY && Extracts(Angles(angles, turn), p.pose.rot) && turn(0.0) == NO_TURN
    ensures var r := RotateAll(q, TripleTree(angles).items, turn);
      r.pose.rot == p.pose.rot && r.pose.tran == q.pose.tran && r.hasTranslation == q.hasTranslation && r.hasRotation
  {
    hide Mul, IsRotation, RotateAll, PutAll, Extracts, EulerMatrix;
    TripleRoundTrip(angles);
    RotateAllIs(q, TripleTree(angles).items, turn);
    ExtractsIsRebuilds(Angles(angles, turn), p.pose.rot);
    MulIdentity(p.pose.rot);
  }

  /** The members as SceneLists reads them stand for the same transform when at most one of them is a
      rotation. */
  lemma {:induction false} OneRotationAgrees(m: seq<Member>, turn: Turning)
    requires turn(0.0) == NO_TURN
    requires forall i, j :: 0 <= i < j < |m| && m[i].name == "rotation" ==> m[j].name != "rotation"
    ensures PlacedFrom(m, turn).pose.rot == MatrixOf(PlacementFrom(m).rotation, turn)
    ensures (forall e <- m :: e.name != "rotation") ==> PlacementFrom(m).rotation == None
  {
    hide Mul, IsRotation, RotateAll, TranslateAll, PutAll, MatrixOf;
    if m == [] {
      NothingPut(turn);
    } else {
      var n := |m| - 1;
      var p, items := PlacedFrom(m[..n], turn), ItemsOf(Some(m[n].value));
      OneRotationAgrees(m[..n], turn);
      assert m == m[..n] + [m[n]];
      RotateAllIs(p, items, turn);
      TranslateAllIs(p, items);
      if m[n].name == "rotation" {
        assert forall e <- m[..n] :: e.name != "rotation";
        NothingPut(turn);
        MulIdentity(MatrixOf(PutAll(None, items), turn));
      }
    }
  }
}
