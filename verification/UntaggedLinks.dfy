/**
 Links as the code leaves them. create_scene_link writes no "key" property, so get_scene_link never
 finds one, no link is ever corrected, and every alignment adds links. When that matters, exactly.
 */
module UntaggedLinks {
  import opened Poses
  import opened Paths
  import opened SceneGraph
  import opened GraphProofs
  import opened SceneLinks
  import opened Registration
  import opened RegistrationProofs
  import opened RegistrationTheorems
  import opened Telescoping
  import opened LinkPaths

  function Others(rows: seq<Row>, s: Key): nat {
    if rows == [] then 0
    else Others(rows[..|rows| - 1], s) + if rows[|rows| - 1].scene == s then 0 else 1
  }

  /** Each other scene of the rows has a link among those from position n on. */
  ghost predicate EachLinked(h: Graph, n: nat, rows: seq<Row>, s: Key) {
    forall row <- rows :: row.scene != s ==> exists k :: n <= k < |h.links| && Joins(h, h.links[k], row.scene, s)
  }

  ghost predicate ApartFrom(links: seq<Link>, n: nat) {
    forall i, j :: n <= i < j < |links| ==> !SamePair(links[i], links[j])
  }

  /** h's links are those of g, untouched, and after them one for each other scene of the rows. */
  ghost predicate OneMoreEach(g: Graph, h: Graph, rows: seq<Row>, s: Key) {
    && |h.links| == |g.links| + Others(rows, s)
    && h.links[..|g.links|] == g.links
    && EachLinked(h, |g.links|, rows, s)
    && ApartFrom(h.links, |g.links|)
  }

  ghost predicate AddsOne(m: Graph, h: Graph, r: Key, s: Key) {
    && h.scenes == m.scenes && |h.links| == |m.links| + 1 && h.links[..|m.links|] == m.links
    && Joins(h, h.links[|m.links|], r, s)
  }

  lemma EachLinkedStep(m: Graph, h: Graph, n: nat, rows: seq<Row>, s: Key)
    requires rows != [] && n <= |m.links| && AddsOne(m, h, rows[|rows| - 1].scene, s)
    requires EachLinked(m, n, rows[..|rows| - 1], s)
    ensures EachLinked(h, n, rows, s)
  {
    var front := rows[..|rows| - 1];
    forall row <- rows | row.scene != s
      ensures exists k :: n <= k < |h.links| && Joins(h, h.links[k], row.scene, s)
    {
      if row in front {
        var k :| n <= k < |m.links| && Joins(m, m.links[k], row.scene, s);
        assert h.links[k] == m.links[k];
      } else {
        assert rows == front + [rows[|front|]];
      }
    }
  }

  lemma ApartStep(m: Graph, h: Graph, n: nat, rows: seq<Row>, s: Key)
    requires rows != [] && n <= |m.links| && AddsOne(m, h, rows[|rows| - 1].scene, s) && RowsOk(m, rows)
    requires rows[|rows| - 1].scene != s && ApartFrom(m.links, n)
    requires forall k :: n <= k < |m.links| ==> TouchesRow(m, m.links[k], rows[..|rows| - 1], s)
    ensures ApartFrom(h.links, n)
  {
    hide SamePair, Joins;
    forall i, j | n <= i < j < |h.links|
      ensures !SamePair(h.links[i], h.links[j])
    {
      assert h.links[i] == m.links[i];
      if j == |m.links| {
        var row :| row in rows[..|rows| - 1] && row.scene != s && Between(m, m.links[i], row.scene, s);
        SameScenes(m, h, m.links[i], row.scene, s);
        DifferentRows(h, h.links[i], h.links[j], row.scene, rows[|rows| - 1].scene, s);
      } else {
        assert h.links[j] == m.links[j];
      }
    }
  }

  lemma SameScenes(g: Graph, h: Graph, l: Link, r: Key, s: Key)
    requires g.scenes == h.scenes
    ensures Between(g, l, r, s) <==> Between(h, l, r, s)
  {
  }

  lemma DifferentRows(g: Graph, l: Link, m: Link, q: Key, r: Key, s: Key)
    requires Between(g, l, q, s) && Between(g, m, r, s) && q != r && q != s && r != s
    ensures !SamePair(l, m)
  {
  }

  /** The loop of an alignment as coded adds one link for each other scene and corrects none. */
  lemma {:induction false} RelinkAdds(g: Graph, rows: seq<Row>, s: Key, inS: Pose)
    requires LinksOk(g, false) && RowsOk(g, rows) && s in g.scenes
    ensures OneMoreEach(g, Relink(g, rows, s, inS, false), rows, s)
  {
    hide LinksOk, RelinkOne, CreateSceneLink, NewestCarries, Toward, OnlyPair, OneMoreEach;
    if rows == [] {
      NoneAdded(g, s);
    } else {
      var n := |rows| - 1;
      var m := Relink(g, rows[..n], s, inS, false);
      RelinkAdds(g, rows[..n], s, inS);
      RelinkIs(g, rows[..n], s, inS, false);
      if rows[n].scene == s {
        SkippedRow(g, m, rows, s);
      } else {
        var p := Toward(rows[n].pose, inS);
        RelinkOneIs(m, rows[n].scene, s, p, false);
        CreateIsPair(m, rows[n].scene, s, p, false);
        var h := CreateSceneLink(m, rows[n].scene, s, p, false);
        AddedRow(g, m, h, rows, s);
      }
    }
  }

  lemma NoneAdded(g: Graph, s: Key)
    ensures OneMoreEach(g, g, [], s)
  {
  }

  lemma SkippedRow(g: Graph, h: Graph, rows: seq<Row>, s: Key)
    requires rows != [] && rows[|rows| - 1].scene == s && OneMoreEach(g, h, rows[..|rows| - 1], s)
    ensures OneMoreEach(g, h, rows, s)
  {
    assert rows == rows[..|rows| - 1] + [rows[|rows| - 1]];
  }

  lemma AddedRow(g: Graph, m: Graph, h: Graph, rows: seq<Row>, s: Key)
    requires rows != [] && rows[|rows| - 1].scene != s && RowsOk(m, rows)
    requires OneMoreEach(g, m, rows[..|rows| - 1], s) && OnlyRows(g, m, rows[..|rows| - 1], s)
    requires AddsOne(m, h, rows[|rows| - 1].scene, s)
    ensures OneMoreEach(g, h, rows, s)
  {
    hide RowsOk, EachLinked, ApartFrom, TouchesRow;
    assert h.links[..|g.links|] == m.links[..|g.links|];
    EachLinkedStep(m, h, |g.links|, rows, s);
    ApartStep(m, h, |g.links|, rows, s);
  }

  // ---------------------------------------------------------------- an alignment as coded

  /** Every other scene of the device has a link with s among those from position n on. */
  ghost predicate EachSceneLinked(g: Graph, h: Graph, n: nat, s: Key, d: Key) {
    forall r :: r != s && HasReg(g, r, d) ==> exists k :: n <= k < |h.links| && Joins(h, h.links[k], r, s)
  }

  /** The links of g, untouched, and one new link for every other scene of the device. */
  ghost predicate Grown(g: Graph, h: Graph, s: Key, d: Key) {
    && h.scenes == g.scenes && |g.links| <= |h.links| && h.links[..|g.links|] == g.links
    && EachSceneLinked(g, h, |g.links|, s, d) && ApartFrom(h.links, |g.links|)
  }

  /** The links from position n on join s and another scene of the device, and tell the truth. */
  ghost predicate NewOnesTell(h: Graph, n: nat, s: Key, d: Key) {
    forall k :: n <= k < |h.links| ==> Concerned(h, h.links[k], s, d) && Tells(h, h.links[k], d)
  }

  lemma GrownTell(g: Graph, h: Graph, s: Key, d: Key, pose: Pose)
    requires Grown(g, h, s, d) && EdgesOk(h)
    requires NewestAligned(g, h, s, d, pose) && RegsAligned(g, h, s, d, pose) && OthersKept(g, h, s, d)
    ensures NewOnesTell(h, |g.links|, s, d)
  {
    hide NewestAligned, RegsAligned, Concerned, Tells, EachSceneLinked, EdgesOk;
    forall k | |g.links| <= k < |h.links|
      ensures Tells(h, h.links[k], d)
    {
      ConcernedTells(g, h, s, d, pose, k);
    }
  }

  lemma CodedAligning(g: Graph, s: Key, d: Key, pose: Pose)
    requires Sound(g, false) && HasReg(g, s, d)
    ensures Grown(g, Aligning(g, d, s, pose, false), s, d)
  {
    var m, rows := AligningIsRelink(g, s, d, pose, false);
    var h := Relink(m, rows, s, pose, false);
    RelinkAdds(m, rows, s, pose);
    RelinkKeepsScenes(m, rows, s, pose, false);
    hide Aligning, Relink, Sound, RowsOk, LinksOk, ApartFrom, Registered, Joins;
    forall r | r != s && HasReg(g, r, d)
      ensures exists k :: |g.links| <= k < |h.links| && Joins(h, h.links[k], r, s)
    {
      HasRegIs(g, r, d);
      var p :| Registered(g, r, d, p);
      assert Row(r, p) in rows;
    }
  }

  /** An alignment as coded keeps every link there was and adds one, a right one, for every other
      scene the device is registered to. */
  lemma CodedAlignment(g: Graph, msg: seq<SceneMsg>)
    requires Sound(g, false) && Complete(msg) && HasReg(g, msg[0].key, msg[0].devices[0].key)
    ensures var h := Next(g, Align(msg), false); var s, d := msg[0].key, msg[0].devices[0].key;
      && Grown(g, h, s, d) && NewOnesTell(h, |g.links|, s, d)
      && Aligned(g, h, s, d, msg[0].devices[0].pose)
  {
    var s, d, pose := msg[0].key, msg[0].devices[0].key, msg[0].devices[0].pose;
    var h := Next(g, Align(msg), false);
    assert h == Aligning(g, d, s, pose, false);
    hide Next, Sound, HasReg, Registered, NewestAligned, OthersKept, Grown, NewOnesTell, Aligning, KeysUnique, EdgesOk;
    hide RegsAligned;
    CodedAligning(g, s, d, pose);
    AlignIsAligned(g, msg, false);
    GrownTell(g, h, s, d, pose);
  }

  /** As coded, there is still at most one link per pair of scenes exactly when none of the links
      there were joins the scene and another one the device is registered to. */
  lemma CodedKeepsOneLinkPerPair(g: Graph, msg: seq<SceneMsg>)
    requires Sound(g, false) && Complete(msg) && HasReg(g, msg[0].key, msg[0].devices[0].key)
    requires OneLinkPerPair(g.links)
    ensures OneLinkPerPair(Next(g, Align(msg), false).links) <==>
            forall l <- g.links :: !Concerned(g, l, msg[0].key, msg[0].devices[0].key)
  {
    hide Next, Sound, Concerned, HasReg, OneLinkPerPair, Grown, NewOnesTell, RegsAligned, KeysUnique, EdgesOk;
    CodedAlignment(g, msg);
    GrownOneLinkPerPair(g, Next(g, Align(msg), false), msg[0].key, msg[0].devices[0].key, msg[0].devices[0].pose);
  }

  lemma GrownOneLinkPerPair(g: Graph, h: Graph, s: Key, d: Key, pose: Pose)
    requires Grown(g, h, s, d) && NewOnesTell(h, |g.links|, s, d) && RegsAligned(g, h, s, d, pose)
    requires EdgesOk(h) && KeysUnique(g) && h.scenes == g.scenes && OneLinkPerPair(g.links)
    ensures OneLinkPerPair(h.links) <==> forall l <- g.links :: !Concerned(g, l, s, d)
  {
    hide Tells, Concerned, HasReg, EachSceneLinked, KeysUnique, RegsAligned, SamePair;
    assert forall k :: 0 <= k < |g.links| ==> h.links[k] == g.links[k];
    if l :| l in g.links && Concerned(g, l, s, d) {
      var i :| 0 <= i < |g.links| && g.links[i] == l;
      assert h.links[i] == l;
      var k := PairedWithNew(g, h, l, s, d);
    } else {
      forall i, j | 0 <= i < j < |h.links|
        ensures !SamePair(h.links[i], h.links[j])
      {
        if i < |g.links| <= j && SamePair(h.links[i], h.links[j]) {
          assert h.links[i] in h.links && h.links[j] in h.links && g.links[i] in g.links;
          PairedIsConcerned(g, h, h.links[i], h.links[j], s, d);
          ConcernedBack(g, h, h.links[i], s, d, pose);
        }
      }
    }
  }

  lemma ConcernedBack(g: Graph, h: Graph, l: Link, s: Key, d: Key, pose: Pose)
    requires h.scenes == g.scenes && RegsAligned(g, h, s, d, pose) && Concerned(h, l, s, d)
    ensures Concerned(g, l, s, d)
  {
    hide Registered, HasReg;
    var r :| r != s && HasReg(h, r, d) && Between(h, l, r, s);
    HasRegIs(g, r, d);
    HasRegIs(h, r, d);
    assert Between(g, l, r, s);
  }

  lemma PairedWithNew(g: Graph, h: Graph, l: Link, s: Key, d: Key) returns (k: nat)
    requires Concerned(g, l, s, d) && h.scenes == g.scenes && KeysUnique(g) && EdgesOk(h)
    requires l in h.links && EachSceneLinked(g, h, |g.links|, s, d)
    ensures |g.links| <= k < |h.links| && SamePair(l, h.links[k])
  {
    hide HasReg;
    var r :| r != s && HasReg(g, r, d) && Between(g, l, r, s);
    k :| |g.links| <= k < |h.links| && Joins(h, h.links[k], r, s);
    assert h.links[k] in h.links;
    BetweenIsPair(h, l, h.links[k], r, s);
  }

  lemma PairedIsConcerned(g: Graph, h: Graph, l: Link, m: Link, s: Key, d: Key)
    requires KeysUnique(g) && h.scenes == g.scenes
    requires l.src < |h.scenes| && l.dst < |h.scenes| && m.src < |h.scenes| && m.dst < |h.scenes|
    requires SamePair(l, m) && Concerned(h, m, s, d)
    ensures Concerned(h, l, s, d)
  {
    hide HasReg;
    var r :| r != s && HasReg(h, r, d) && Between(h, m, r, s);
    BetweenIsPair(h, m, l, r, s);
  }

  /** A link of the device that touches s stops telling the truth when the device moves in s. */
  lemma MovedEnd(g: Graph, h: Graph, l: Link, s: Key, d: Key, was: Pose, pose: Pose)
    requires Ok(g) && Ok(h) && h.scenes == g.scenes && l.src != l.dst
    ensures RegsAligned(g, h, s, d, pose) && Tells(g, l, d) && Registered(g, s, d, was) && Touches(g, l, s) ==>
            (Tells(h, l, d) <==> pose == was)
  {
    hide Registered, Toward, Ok;
    if RegsAligned(g, h, s, d, pose) && Tells(g, l, d) && Registered(g, s, d, was) && Touches(g, l, s) {
      var i, j := g.scenes[l.src], g.scenes[l.dst];
      var a, b :| Registered(g, i, d, a) && Registered(g, j, d, b) && l.pose == Toward(a, b);
      assert i != j by { OkParts(g); }
      if i == s {
        RegisteredOnce(g, s, d, a, was);
        assert Registered(h, i, d, pose) && Registered(h, j, d, b);
        TellsExactly(h, l, d, pose, b);
        TowardIsInjective(was, pose, b);
      } else {
        RegisteredOnce(g, s, d, b, was);
        assert Registered(h, i, d, a) && Registered(h, j, d, pose);
        TellsExactly(h, l, d, a, pose);
        TowardIsInjective(was, pose, a);
      }
    }
  }

  lemma StillTells(g: Graph, h: Graph, l: Link, s: Key, d: Key, pose: Pose)
    requires h.scenes == g.scenes && RegsAligned(g, h, s, d, pose) && Tells(g, l, d) && !Touches(g, l, s)
    ensures Tells(h, l, d)
  {
    hide Registered, Toward;
    var a, b :|
      Registered(g, g.scenes[l.src], d, a) && Registered(g, g.scenes[l.dst], d, b) && l.pose == Toward(a, b);
    assert Registered(h, h.scenes[l.src], d, a) && Registered(h, h.scenes[l.dst], d, b);
  }

  lemma GrownAllTell(g: Graph, h: Graph, s: Key, d: Key, was: Pose, pose: Pose)
    requires Ok(g) && Ok(h) && Grown(g, h, s, d) && NewOnesTell(h, |g.links|, s, d) && RegsAligned(g, h, s, d, pose)
    requires AllTell(g, d) && Registered(g, s, d, was)
    ensures AllTell(h, d) <==> pose == was || forall l <- g.links :: !Touches(g, l, s)
  {
    OkParts(g);
    hide Ok, Tells, Touches, Registered, RegsAligned, EachSceneLinked, ApartFrom, KeysUnique, Concerned;
    assert forall k :: 0 <= k < |g.links| ==> h.links[k] == g.links[k];
    forall l <- g.links
      ensures l in h.links && (Tells(h, l, d) <==> pose == was || !Touches(g, l, s))
    {
      var k :| 0 <= k < |g.links| && g.links[k] == l;
      assert h.links[k] == l;
      if Touches(g, l, s) {
        MovedEnd(g, h, l, s, d, was, pose);
      } else {
        StillTells(g, h, l, s, d, pose);
      }
    }
  }

  /** As coded, all links go on telling the truth exactly when the device did not move in the scene
      or no link touched it. */
  lemma CodedKeepsAllTelling(g: Graph, msg: seq<SceneMsg>, was: Pose)
    requires Sound(g, false) && Complete(msg) && Registered(g, msg[0].key, msg[0].devices[0].key, was)
    requires AllTell(g, msg[0].devices[0].key)
    ensures AllTell(Next(g, Align(msg), false), msg[0].devices[0].key) <==>
            msg[0].devices[0].pose == was || forall l <- g.links :: !Touches(g, l, msg[0].key)
  {
    var s, d, pose := msg[0].key, msg[0].devices[0].key, msg[0].devices[0].pose;
    HasRegIs(g, s, d);
    var h := Next(g, Align(msg), false);
    hide Next, Registered, Grown, NewOnesTell, RegsAligned, AllTell, Ok, LinksOk, HasReg;
    CodedAlignment(g, msg);
    NextKeepsSound(g, Align(msg), false);
    GrownAllTell(g, h, s, d, was, pose);
  }

  // ---------------------------------------------------------------- a run that shows it

  function One(key: Key, dev: Key, pose: Pose): seq<SceneMsg> {
    [SceneMsg(key, [DeviceMsg(dev, "", "", 0, pose)])]
  }

  /** A device registered in two scenes, aligned in one and then aligned there again elsewhere. */
  function Twice(p: Pose, q: Pose): seq<Request> {
    [Register(One("a", "d", p), "", ""), Register(One("b", "d", p), "", ""),
     Align(One("b", "d", p)), Align(One("b", "d", q))]
  }

  /** The graph after both registrations: two scenes, the device in both, no link. */
  ghost predicate BothRegistered(g: Graph) {
    && Sound(g, false) && g.links == []
    && Registered(g, "a", "d", Still()) && Registered(g, "b", "d", Still())
  }

  function Registrations(p: Pose): Graph {
    Next(Next(EMPTY, Register(One("a", "d", p), "", ""), false), Register(One("b", "d", p), "", ""), false)
  }

  lemma TwoRegistrations(p: Pose)
    ensures BothRegistered(Registrations(p))
  {
    hide Next, Sound, Registered, Still, Reply, HasReg, IdIsNew;
    var r1, r2 := Register(One("a", "d", p), "", ""), Register(One("b", "d", p), "", "");
    var g1 := Next(EMPTY, r1, false);
    EmptyIsSound(false);
    NoneInEmpty();
    RegisterNamed(EMPTY, "a", p);
    NoneAtB(g1);
    RegisterNamed(g1, "b", p);
  }

  /** Registering device d, with no generated key, where it is not registered. */
  lemma RegisterNamed(g: Graph, s: Key, p: Pose)
    requires Sound(g, false) && s != "" && !HasReg(g, s, "d")
    ensures var h := Next(g, Register(One(s, "d", p), "", ""), false);
      && Sound(h, false) && h.links == g.links && Registered(h, s, "d", Still())
      && h.scenes == (if s in g.scenes then g.scenes else g.scenes + [s])
      && forall r, e, q :: Registered(g, r, e, q) ==> Registered(h, r, e, q)
  {
    hide Next, Sound, Registered, Still, Reply, HasReg;
    var req := Register(One(s, "d", p), "", "");
    RegisterExactly(g, req, false);
    NextKeepsSound(g, req, false);
  }

  lemma NoneInEmpty()
    ensures !HasReg(EMPTY, "a", "d")
  {
  }

  lemma NoneAtB(g: Graph)
    requires g.scenes == ["a"]
    ensures !HasReg(g, "b", "d")
  {
  }

  lemma FromStill(p: Pose)
    ensures Toward(Still(), p) == p
  {
    hide Compose, Invert, Still;
    InvertUndoes(Still());
    StillIsNeutral(Still());
    InverseIsInvert(Still(), Still());
    StillIsNeutral(p);
  }

  /** An alignment at "b" makes a link from "a" that carries the device's place in "b". */
  lemma AlignAtB(g: Graph, p: Pose) returns (l: Link)
    requires Sound(g, false) && Registered(g, "a", "d", Still()) && HasReg(g, "b", "d")
    ensures var h := Next(g, Align(One("b", "d", p)), false);
      && Sound(h, false) && Registered(h, "a", "d", Still()) && Registered(h, "b", "d", p)
      && h.scenes == g.scenes && |g.links| <= |h.links| && h.links[..|g.links|] == g.links
      && l in h.links && Joins(h, l, "a", "b") && l.pose == p
  {
    var msg := One("b", "d", p);
    var h := Next(g, Align(msg), false);
    hide Next, Registered, Sound, HasReg, Still, Tells, Concerned, Joins, Reply, ApartFrom, Toward, EdgesOk, KeysUnique;
    hide NewestAligned, OthersKept, Ok;
    HasRegIs(g, "a", "d");
    CodedAlignment(g, msg);
    NextKeepsSound(g, Align(msg), false);
    AlignExactly(g, msg, false);
    assert "a" != "b";
    var k :| |g.links| <= k < |h.links| && Joins(h, h.links[k], "a", "b");
    l := h.links[k];
    FromStill(p);
    UnfoldSound(h, false);
    TellsBetween(h, l, p);
  }

  lemma TellsBetween(g: Graph, l: Link, p: Pose)
    requires Ok(g) && Tells(g, l, "d") && Joins(g, l, "a", "b")
    requires Registered(g, "a", "d", Still()) && Registered(g, "b", "d", p)
    ensures l.pose == Toward(Still(), p)
  {
    hide Registered, Toward, Still, Ok, Tells;
    TellsExactly(g, l, "d", Still(), p);
  }

  /** The closed walk over one edge and back over another. */
  function RoundTrip(p: EdgeProps, q: EdgeProps): seq<PathElement> {
    [EdgeElement(p, true), EdgeElement(q, false)]
  }

  /** Two links from "a" to "b" with different transforms: one of the paths over them is wrong, and the
      walk over one and back over the other does not lead back. */
  ghost predicate FoldsWrong(g: Graph, p: EdgeProps, q: EdgeProps) {
    && Registered(g, "a", "d", Still()) && Registered(g, "b", "d", PoseOf(q))
    && IsPath(g, LinksOf(g), OneHop(p), "a", "b") && Fold(OneHop(p)) != Toward(Still(), PoseOf(q))
    && IsPath(g, LinksOf(g), RoundTrip(p, q), "a", "a") && Fold(RoundTrip(p, q)) != Still()
  }

  lemma WrongPaths(g: Graph, l: Link, m: Link, p: EdgeProps, q: EdgeProps)
    requires l in g.links && m in g.links && Joins(g, l, "a", "b") && Joins(g, m, "a", "b")
    requires l.pose == PoseOf(p) && m.pose == PoseOf(q) && PoseOf(p) != PoseOf(q)
    requires Registered(g, "a", "d", Still()) && Registered(g, "b", "d", PoseOf(q))
    ensures FoldsWrong(g, p, q)
  {
    hide Registered, Still, PoseOf, Compose, Invert, Toward, Fold;
    var (e, f) := (EdgeElement(p, true), EdgeElement(q, false));
    assert [] + [e] == OneHop(p) && [e] + [f] == RoundTrip(p, q);
    LastHop(g, LinksOf(g), [], e, "a", "a", "b", l);
    LastHop(g, LinksOf(g), [e], f, "a", "b", "a", m);
    FoldOne(e);
    FoldOne(f);
    FoldConcat([e], [f]);
    FromStill(PoseOf(q));
    if Compose(Invert(PoseOf(q)), PoseOf(p)) == Still() {
      InverseIsInvert(PoseOf(p), Invert(PoseOf(q)));
      InvertTwice(PoseOf(p));
      InvertTwice(PoseOf(q));
    }
  }

  /** Any two edges with different transforms show it. After the run as coded there are two links
      between the scenes, one of them is wrong, the path over it folds to the wrong transform and the
      closed walk over both does not fold to the neutral one. With tagged links there is one link, it
      is right, and every path folds right. */
  lemma AligningTwice(p: EdgeProps, q: EdgeProps)
    requires PoseOf(p) != PoseOf(q)
    ensures var g := Run(EMPTY, Twice(PoseOf(p), PoseOf(q)), false);
      !OneLinkPerPair(g.links) && !AllTell(g, "d") && FoldsWrong(g, p, q)
    ensures var g := Run(EMPTY, Twice(PoseOf(p), PoseOf(q)), true);
      OneLinkPerPair(g.links) && AllTell(g, "d") && AllFold(g, LinksOf(g), "d")
  {
    hide Next, Run, Runs, Twice, One, Registrations, OneLinkPerPair, AllTell, AllFold, FoldsWrong, PoseOf;
    hide BothRegistered;
    var (a, b) := (PoseOf(p), PoseOf(q));
    TwiceSteps(a, b);
    TwoRegistrations(a);
    AlignBoth(Registrations(a), p, q);
    TwiceIsRun(a, b);
    TaggedRun(Twice(a, b), "d");
    TaggedFold(Twice(a, b), "d");
  }

  lemma TwiceSteps(p: Pose, q: Pose)
    ensures Run(EMPTY, Twice(p, q), false) ==
            Next(Next(Registrations(p), Align(One("b", "d", p)), false), Align(One("b", "d", q)), false)
  {
    hide Next, Run, One;
    var r1, r2 := Register(One("a", "d", p), "", ""), Register(One("b", "d", p), "", "");
    FourSteps(EMPTY, r1, r2, Align(One("b", "d", p)), Align(One("b", "d", q)), false);
  }

  /** Aligning at "b" twice. */
  lemma AlignBoth(g: Graph, p: EdgeProps, q: EdgeProps)
    requires BothRegistered(g) && PoseOf(p) != PoseOf(q)
    ensures var f := Next(g, Align(One("b", "d", PoseOf(p))), false);
      var h := Next(f, Align(One("b", "d", PoseOf(q))), false);
      !OneLinkPerPair(h.links) && !AllTell(h, "d") && FoldsWrong(h, p, q)
  {
    hide Next, Registered, HasReg, Sound, PoseOf, Still, FoldsWrong, One;
    var f := Next(g, Align(One("b", "d", PoseOf(p))), false);
    var h := Next(f, Align(One("b", "d", PoseOf(q))), false);
    HasRegIs(g, "b", "d");
    var l := AlignAtB(g, PoseOf(p));
    HasRegIs(f, "b", "d");
    var m := AlignAtB(f, PoseOf(q));
    var k :| 0 <= k < |f.links| && f.links[k] == l;
    assert h.links[k] == l && l in h.links && Joins(h, l, "a", "b");
    WrongPaths(h, l, m, p, q);
    TwoLinks(h, l, m, PoseOf(q));
  }

  lemma TwoLinks(g: Graph, l: Link, m: Link, q: Pose)
    requires Sound(g, false) && l in g.links && m in g.links && Joins(g, l, "a", "b") && Joins(g, m, "a", "b")
    requires Registered(g, "a", "d", Still()) && Registered(g, "b", "d", q) && m.pose == q && l.pose != q
    ensures !OneLinkPerPair(g.links) && !AllTell(g, "d")
  {
    hide Registered, Still, Sound, Ok, Toward, Tells, Joins, OneLinkPerPair, TellAll, LinksOk;
    UnfoldSound(g, false);
    OkParts(g);
    TwoBetween(g, l, m);
    if AllTell(g, "d") {
      assert Tells(g, l, "d") by { TellingLink(g, l); }
      TellsBetween(g, l, q);
      FromStill(q);
    }
  }

  lemma TellingLink(g: Graph, l: Link)
    requires AllTell(g, "d") && l in g.links
    ensures Tells(g, l, "d")
  {
    hide Tells;
  }

  lemma TwoBetween(g: Graph, l: Link, m: Link)
    requires KeysUnique(g) && l in g.links && m in g.links && l != m && Joins(g, l, "a", "b") && Joins(g, m, "a", "b")
    ensures !OneLinkPerPair(g.links)
  {
    var i :| 0 <= i < |g.links| && g.links[i] == l;
    var j :| 0 <= j < |g.links| && g.links[j] == m;
    assert SamePair(g.links[i], g.links[j]) && SamePair(g.links[j], g.links[i]);
  }

  /** With tagged links all paths of such a run fold right. */
  lemma TaggedFold(reqs: seq<Request>, d: Key)
    requires Runs(EMPTY, reqs, d, true)
    ensures AllFold(Run(EMPTY, reqs, true), LinksOf(Run(EMPTY, reqs, true)), d)
  {
    hide Run, Runs, IsPath, Registered, Toward, Fold;
    var g := Run(EMPTY, reqs, true);
    forall path, from, to, a, b |
      IsPath(g, LinksOf(g), path, from, to) && Registered(g, from, d, a) && Registered(g, to, d, b)
      ensures Fold(path) == Toward(a, b)
    {
      TaggedPathsTelescope(reqs, d, path, from, to, a, b);
    }
  }

  lemma TwiceIsRun(p: Pose, q: Pose)
    ensures Runs(EMPTY, Twice(p, q), "d", true)
  {
    NamedIdsAreNew(EMPTY, Twice(p, q), true);
    hide IdsAreNew, IdIsNew;
    forall req <- Twice(p, q)
      ensures OnlyAligns(req, "d")
    {
    }
  }

  lemma {:induction false} NamedIdsAreNew(g: Graph, reqs: seq<Request>, tagged: bool)
    requires forall req <- reqs :: Complete(req.msg) && req.msg[0].key != ""
    ensures IdsAreNew(g, reqs, tagged)
    decreases reqs
  {
    hide Next;
    if reqs != [] {
      NamedIdsAreNew(Next(g, reqs[0], tagged), reqs[1..], tagged);
    }
  }

  lemma FourSteps(g: Graph, a: Request, b: Request, c: Request, e: Request, tagged: bool)
    ensures Run(g, [a, b, c, e], tagged) == Next(Next(Next(Next(g, a, tagged), b, tagged), c, tagged), e, tagged)
  {
    hide Next;
    var g1 := Next(g, a, tagged);
    var g2 := Next(g1, b, tagged);
    assert [a, b, c, e][1..] == [b, c, e] && [b, c, e][1..] == [c, e];
    var g3 := Next(g2, c, tagged);
    assert [c, e][1..] == [e] && [e][1..] == [];
    assert Run(g, [a, b, c, e], tagged) == Run(g1, [b, c, e], tagged);
    assert Run(g1, [b, c, e], tagged) == Run(g2, [c, e], tagged);
    assert Run(g2, [c, e], tagged) == Run(g3, [e], tagged);
    assert Run(g3, [e], tagged) == Run(Next(g3, e, tagged), [], tagged);
  }
}
