/** Folding a path of stored edges into one transform, as calculate_scene_scene_transform does. */
module Paths {
  import opened Wrappers
  import opened Matrices
  import opened Rotations
  import opened Poses
  import opened Transforms

  /** The properties of a stored TRANSFORM edge; any of them may be missing. */
  datatype EdgeProps = EdgeProps(
    tx: Option<real>, ty: Option<real>, tz: Option<real>,
    rx: Option<Turn>, ry: Option<Turn>, rz: Option<Turn>)

  /** The database returns nodes and edges of a path in turn. */
  datatype PathElement = NodeElement | EdgeElement(props: EdgeProps, forward: bool)

  function Turned(m: Rotation, index: nat, t: Option<Turn>): Rotation
    requires index < 3
  {
    if t.None? then m
    else
      AxisTurnIsRotation(index, t.value);
      ProductIsRotation(m, AxisTurn(index, t.value));
      Mul(m, AxisTurn(index, t.value))
  }

  /** The transform an edge stands for. */
  function PoseOf(p: EdgeProps): Pose {
    Pose(Vec3(Or(p.tx, 0.0), Or(p.ty, 0.0), Or(p.tz, 0.0)), Turned(Turned(Turned(Unit(), 0, p.rx), 1, p.ry), 2, p.rz))
  }

  /** What is stored for a transform: its translation and the angles extracted from its matrix. */
  function Stored(p: Pose, angles: Euler): EdgeProps {
    EdgeProps(Some(p.tran.x), Some(p.tran.y), Some(p.tran.z), Some(angles.x), Some(angles.y), Some(angles.z))
  }

  /** Storing an edge and reading it back loses nothing. */
  lemma StoredIsLossless(p: Pose, angles: Euler)
    requires Extracts(angles, p.rot)
    ensures PoseOf(Stored(p, angles)) == p
  {
    ExtractsIsRebuilds(angles, p.rot);
    hide Extracts, IsRotation, Mul, AxisTurn;
  }

  function EdgePose(e: PathElement): Pose
    requires e.EdgeElement?
  {
    if e.forward then PoseOf(e.props) else Invert(PoseOf(e.props))
  }

  /** The product of the edges, the first one innermost. */
  function Fold(path: seq<PathElement>): Pose {
    if path == [] then Still()
    else
      var n := |path| - 1;
      if path[n].NodeElement? then Fold(path[..n]) else Compose(EdgePose(path[n]), Fold(path[..n]))
  }

  method BuildEdge(p: EdgeProps) returns (t: Transform)
    ensures fresh(t) && t.Valid() && t.Value() == PoseOf(p)
  {
    hide Mul, AxisTurn, IsRotation, OnCircle, Extracts, EulerMatrix;
    t := new Transform();
    if p.tx.Some? {
      t.Translate(0, p.tx.value);
    }
    if p.ty.Some? {
      t.Translate(1, p.ty.value);
    }
    if p.tz.Some? {
      t.Translate(2, p.tz.value);
    }
    if p.rx.Some? {
      t.Rotate(0, p.rx.value);
    }
    if p.ry.Some? {
      t.Rotate(1, p.ry.value);
    }
    if p.rz.Some? {
      t.Rotate(2, p.rz.value);
    }
  }

  /** `angles` holds what the library extracts from each edge's matrix. */
  method CalculateTransform(path: seq<PathElement>, angles: seq<Euler>) returns (t: Transform)
    requires |angles| == |path|
    requires forall i :: 0 <= i < |path| && path[i].EdgeElement? ==> Extracts(angles[i], EdgePose(path[i]).rot)
    ensures fresh(t) && t.Valid() && t.Value() == Fold(path)
  {
    hide Mul, AxisTurn, IsRotation, OnCircle, Extracts, EulerMatrix, Compose, Invert, PoseOf;
    t := new Transform();
    for i := 0 to |path|
      invariant fresh(t) && t.Valid() && t.Value() == Fold(path[..i])
    {
      assert path[..i + 1][..i] == path[..i];
      if path[i].EdgeElement? {
        var edge := BuildEdge(path[i].props);
        if !path[i].forward {
          edge.InvertInPlace();
        }
        t.AddTransform(edge, false, angles[i]);
      }
    }
    assert path[..|path|] == path;
  }

  /** The transform of a new link from scene 1 to scene 2, from a device's transforms in both. */
  method LinkTransform(t1: Transform, t2: Transform, angles1: Euler, angles2: Euler) returns (t: Transform)
    requires t1.Valid() && t2.Valid() && Extracts(angles1, t1.transform) && Extracts(angles2, t2.transform)
    modifies t1, t2
    ensures fresh(t) && t.Valid() && t.Value() == Compose(old(t2.Value()), Invert(old(t1.Value())))
    ensures t.transform == Mul(old(t2.transform), Transpose(old(t1.transform)))
    ensures Summed(t.tran, old(t2.tran), old(t1.tran), true)
    ensures t1.Valid() && t2.Valid() && t1.Value() == old(t1.Value()) && t2.Value() == old(t2.Value())
  {
    hide Mul, AxisTurn, IsRotation, OnCircle, Extracts, EulerMatrix, Compose, Invert;
    hide Transpose, Summed, Plus, Minus;
    t := new Transform();
    t.AddTransform(t1, false, angles1);
    StillIsNeutral(old(t1.Value()));
    MulIdentity(old(t1.transform));
    ghost var first := t.tran;
    t.InvertInPlace();
    t.AddTransform(t2, false, angles2);
    DifferenceIs(old(t1.tran), old(t2.tran), first, t.tran);
  }

  lemma DifferenceIs(a: Vec3, b: Vec3, first: Vec3, last: Vec3)
    requires Summed(first, ZERO, a, false) && Summed(last, Vec3(-first.x, -first.y, -first.z), b, false)
    ensures Summed(last, b, a, true)
  {
  }

  lemma {:induction false} FoldConcat(p: seq<PathElement>, q: seq<PathElement>)
    ensures Fold(p + q) == Compose(Fold(q), Fold(p))
    decreases |q|
  {
    hide Compose, Invert, PoseOf, IsRotation;
    if q == [] {
      assert p + q == p;
      StillIsNeutral(Fold(p));
    } else {
      var n := |q| - 1;
      assert (p + q)[..|p + q| - 1] == p + q[..n];
      FoldConcat(p, q[..n]);
      if q[n].EdgeElement? {
        ComposeAssoc(EdgePose(q[n]), Fold(q[..n]), Fold(p));
      }
    }
  }

  function Flipped(e: PathElement): PathElement {
    if e.NodeElement? then e else e.(forward := !e.forward)
  }

  /** The same path walked from its end to its start. */
  function Reversed(path: seq<PathElement>): seq<PathElement> {
    if path == [] then [] else [Flipped(path[|path| - 1])] + Reversed(path[..|path| - 1])
  }

  lemma FoldOne(e: PathElement)
    ensures Fold([e]) == if e.NodeElement? then Still() else EdgePose(e)
  {
    hide Compose, Invert, PoseOf, IsRotation;
    assert [e][..0] == [];
    if e.EdgeElement? {
      StillIsNeutral(EdgePose(e));
    }
  }

  /** Inverting a path's transform is folding the reversed path. */
  lemma {:induction false} FoldReversed(path: seq<PathElement>)
    ensures Fold(Reversed(path)) == Invert(Fold(path))
  {
    hide Compose, Invert, PoseOf, IsRotation;
    if path == [] {
      InvertUndoes(Still());
      StillIsNeutral(Invert(Still()));
    } else {
      var n := |path| - 1;
      var last, front := path[n], path[..n];
      FoldReversed(front);
      FoldConcat([Flipped(last)], Reversed(front));
      FoldOne(Flipped(last));
      if last.EdgeElement? {
        InvertCompose(EdgePose(last), Fold(front));
        InvertTwice(PoseOf(last.props));
      } else {
        StillIsNeutral(Invert(Fold(front)));
      }
    }
  }
}
