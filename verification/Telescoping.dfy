/**
 Links of one device telescope: while only one device is aligned, and it is not deregistered, the
 newest link between any two scenes is the transform between the device's places in them, so every
 path along newest links folds to the transform between its ends.
 */
module Telescoping {
  import opened Poses
  import opened SceneGraph
  import opened GraphProofs
  import opened SceneLinks
  import opened Registration
  import opened RegistrationProofs
  import opened RegistrationTheorems

  /** The link is the transform between the device's places in its two scenes. */
  ghost predicate Tells(g: Graph, l: Link, d: Key) {
    && l.src < |g.scenes| && l.dst < |g.scenes|
    && exists a, b ::
      Registered(g, g.scenes[l.src], d, a) && Registered(g, g.scenes[l.dst], d, b) && l.pose == Toward(a, b)
  }

  predicate Touches(g: Graph, l: Link, s: Key) {
    (l.src < |g.scenes| && g.scenes[l.src] == s) || (l.dst < |g.scenes| && g.scenes[l.dst] == s)
  }

  ghost predicate Telescopes(g: Graph, d: Key) {
    forall k: nat :: Newest(g.links, k) ==> Tells(g, g.links[k], d)
  }

  /** Nobody else is aligned, and this device is not deregistered. Registrations, and
      deregistrations of other devices, are free. */
  predicate OnlyAligns(req: Request, d: Key) {
    Complete(req.msg) ==>
      var key := req.msg[0].devices[0].key;
      (req.Align? ==> key == d) && (req.Deregister? ==> key != d)
  }

  // ---------------------------------------------------------------- algebra

  lemma TowardInverts(a: Pose, b: Pose)
    ensures Invert(Toward(a, b)) == Toward(b, a)
  {
    hide Compose, Invert;
    InvertCompose(b, Invert(a));
    InvertTwice(a);
  }

  lemma TowardChains(a: Pose, b: Pose, c: Pose)
    ensures Compose(Toward(b, c), Toward(a, b)) == Toward(a, c)
  {
    hide Compose, Invert;
    ComposeAssoc(c, Invert(b), Compose(b, Invert(a)));
    ComposeAssoc(Invert(b), b, Invert(a));
    InvertUndoes(b);
    StillIsNeutral(Invert(a));
  }

  lemma TowardSelf(a: Pose)
    ensures Toward(a, a) == Still()
  {
    InvertUndoes(a);
  }

  /** Two transforms are told apart by the links they give, from either end. */
  lemma TowardIsInjective(a: Pose, b: Pose, r: Pose)
    ensures Toward(r, a) == Toward(r, b) <==> a == b
    ensures Toward(a, r) == Toward(b, r) <==> a == b
  {
    hide Compose, Invert, Still;
    if Toward(r, a) == Toward(r, b) {
      CancelRight(a, b, Invert(r));
    }
    if Toward(a, r) == Toward(b, r) {
      TowardInverts(a, r);
      TowardInverts(b, r);
      CancelRight(a, b, Invert(r));
    }
  }

  // ---------------------------------------------------------------- one request

  lemma GrowthKeepsTelescopes(g: Graph, h: Graph, d: Key)
    requires Telescopes(g, d) && h.links == g.links && g.scenes <= h.scenes
    requires forall r, p :: Registered(g, r, d, p) ==> Registered(h, r, d, p)
    ensures Telescopes(h, d)
  {
    hide Registered, Toward;
    forall k: nat | Newest(h.links, k)
      ensures Tells(h, h.links[k], d)
    {
      assert Tells(g, g.links[k], d);
    }
  }

  lemma RegisterTelescopes(g: Graph, req: Request, d: Key, tagged: bool)
    requires Sound(g, tagged) && IdIsNew(g, req) && Telescopes(g, d) && req.Register?
    ensures Telescopes(Next(g, req, tagged), d)
  {
    UnfoldSound(g, tagged);
    hide Telescopes, Sound, Registered, RegisterDevice, Ok, LinksOk;
    if Complete(req.msg) && !NoKey(g, req) {
      if req.msg[0].key == "" {
        EmptySceneKeyRegistersNothing(g, req, tagged);
      } else {
        RegisterExactly(g, req, tagged);
      }
      GrowthKeepsTelescopes(g, Next(g, req, tagged), d);
    }
  }

  /** A newest link that the alignment left alone was newest before. */
  lemma NewestBefore(g: Graph, h: Graph, s: Key, d: Key, k: nat)
    requires OthersKept(g, h, s, d) && Newest(h.links, k) && !Concerned(h, h.links[k], s, d)
    ensures Newest(g.links, k) && h.links[k] == g.links[k]
  {
    hide Concerned;
    forall m | k < m < |g.links|
      ensures !SamePair(g.links[k], g.links[m])
    {
      assert h.links[m] == g.links[m].(pose := h.links[m].pose);
    }
  }

  /** A link that tells the truth and does not join s and another scene of the device does not touch s. */
  lemma UnconcernedAvoids(g: Graph, l: Link, s: Key, d: Key)
    requires l.src != l.dst && KeysUnique(g)
    ensures Tells(g, l, d) && !Concerned(g, l, s, d) ==> !Touches(g, l, s)
  {
    hide Toward, HasReg, Registered;
    if Tells(g, l, d) {
      HasRegIs(g, g.scenes[l.src], d);
      HasRegIs(g, g.scenes[l.dst], d);
      assert Between(g, l, g.scenes[l.src], g.scenes[l.dst]) && Between(g, l, g.scenes[l.dst], g.scenes[l.src]);
    }
  }

  /** The registrations of d after it is aligned at s. */
  ghost predicate RegsAligned(g: Graph, h: Graph, s: Key, d: Key, pose: Pose) {
    forall r, p :: Registered(h, r, d, p) <==> if r == s then p == pose else Registered(g, r, d, p)
  }

  lemma CarryingTells(h: Graph, l: Link, r: Key, s: Key, d: Key, p: Pose, pose: Pose)
    requires l.src < |h.scenes| && l.dst < |h.scenes|
    requires Registered(h, r, d, p) && Registered(h, s, d, pose) && Between(h, l, r, s)
    requires Carries(h, l, r, s, Toward(p, pose))
    ensures Tells(h, l, d)
  {
    hide Registered, Toward, Invert;
    TowardInverts(p, pose);
  }

  lemma ConcernedTells(g: Graph, h: Graph, s: Key, d: Key, pose: Pose, k: nat)
    requires EdgesOk(h) && NewestAligned(g, h, s, d, pose) && RegsAligned(g, h, s, d, pose)
    requires Newest(h.links, k) && Concerned(h, h.links[k], s, d)
    ensures Tells(h, h.links[k], d)
  {
    hide Registered, Toward, HasReg, Carries, EdgesOk;
    var r :| r != s && HasReg(h, r, d) && Between(h, h.links[k], r, s);
    HasRegIs(h, r, d);
    var p :| Registered(h, r, d, p);
    assert NewestCarries(h, r, s, Toward(p, pose));
    assert Carries(h, h.links[k], r, s, Toward(p, pose));
    CarryingTells(h, h.links[k], r, s, d, p, pose);
  }

  lemma ConcernedSame(g: Graph, h: Graph, l: Link, s: Key, d: Key, pose: Pose)
    requires h.scenes == g.scenes && RegsAligned(g, h, s, d, pose)
    ensures Concerned(g, l, s, d) ==> Concerned(h, l, s, d)
  {
    hide Registered, HasReg;
    if r :| r != s && HasReg(g, r, d) && Between(g, l, r, s) {
      HasRegIs(g, r, d);
      HasRegIs(h, r, d);
      assert Between(h, l, r, s);
    }
  }

  lemma UnconcernedTells(g: Graph, h: Graph, s: Key, d: Key, pose: Pose, l: Link)
    requires h.scenes == g.scenes && RegsAligned(g, h, s, d, pose) && KeysUnique(g) && l.src != l.dst
    requires Tells(g, l, d) && !Concerned(h, l, s, d)
    ensures Tells(h, l, d)
  {
    hide Registered, Toward, Concerned;
    ConcernedSame(g, h, l, s, d, pose);
    UnconcernedAvoids(g, l, s, d);
    var a, b :|
      Registered(g, g.scenes[l.src], d, a) && Registered(g, g.scenes[l.dst], d, b) && l.pose == Toward(a, b);
    assert Registered(h, h.scenes[l.src], d, a) && Registered(h, h.scenes[l.dst], d, b);
  }

  lemma AlignKeepsEnds(g: Graph, s: Key, d: Key, pose: Pose, tagged: bool)
    requires Sound(g, tagged) && HasReg(g, s, d)
    ensures Aligning(g, d, s, pose, tagged).scenes == g.scenes
  {
    var m, rows := AligningIsRelink(g, s, d, pose, tagged);
    RelinkKeepsScenes(m, rows, s, pose, tagged);
  }

  lemma AlignedTelescopes(g: Graph, h: Graph, s: Key, d: Key, pose: Pose)
    requires EdgesOk(g) && KeysUnique(g) && EdgesOk(h) && h.scenes == g.scenes
    requires NewestAligned(g, h, s, d, pose) && OthersKept(g, h, s, d) && RegsAligned(g, h, s, d, pose)
    requires Telescopes(g, d)
    ensures Telescopes(h, d)
  {
    hide NewestAligned, RegsAligned, Concerned, Tells, KeysUnique;
    forall k: nat | Newest(h.links, k)
      ensures Tells(h, h.links[k], d)
    {
      if Concerned(h, h.links[k], s, d) {
        ConcernedTells(g, h, s, d, pose, k);
      } else {
        NewestBefore(g, h, s, d, k);
        assert g.links[k] in g.links;
        UnconcernedTells(g, h, s, d, pose, g.links[k]);
      }
    }
  }

  /** All that an alignment of a registered device does, in terms of (scene, device) keys. */
  ghost predicate Aligned(g: Graph, h: Graph, s: Key, d: Key, pose: Pose) {
    && EdgesOk(g) && KeysUnique(g) && EdgesOk(h) && h.scenes == g.scenes
    && NewestAligned(g, h, s, d, pose) && OthersKept(g, h, s, d) && RegsAligned(g, h, s, d, pose)
  }

  lemma SoundEdges(g: Graph, tagged: bool)
    requires Sound(g, tagged)
    ensures EdgesOk(g) && KeysUnique(g)
  {
  }

  lemma AlignIsAligned(g: Graph, msg: seq<SceneMsg>, tagged: bool)
    requires Sound(g, tagged) && Complete(msg) && HasReg(g, msg[0].key, msg[0].devices[0].key)
    ensures Aligned(g, Next(g, Align(msg), tagged), msg[0].key, msg[0].devices[0].key, msg[0].devices[0].pose)
  {
    hide Next, Sound, HasReg, Registered, NewestAligned, OthersKept, EdgesOk, KeysUnique, Reply, OneLinkPerPair;
    var s, d, pose := msg[0].key, msg[0].devices[0].key, msg[0].devices[0].pose;
    var h := Next(g, Align(msg), tagged);
    AlignKeepsScenes(g, msg, tagged);
    assert RegsAligned(g, h, s, d, pose) by { AlignExactly(g, msg, tagged); }
    hide RegsAligned;
    AlignLinks(g, msg, tagged);
    NextKeepsSound(g, Align(msg), tagged);
    SoundEdges(g, tagged);
    SoundEdges(h, tagged);
  }

  lemma AlignKeepsScenes(g: Graph, msg: seq<SceneMsg>, tagged: bool)
    requires Sound(g, tagged) && Complete(msg) && HasReg(g, msg[0].key, msg[0].devices[0].key)
    ensures Next(g, Align(msg), tagged).scenes == g.scenes
  {
    hide Sound, HasReg, Aligning;
    AlignKeepsEnds(g, msg[0].key, msg[0].devices[0].key, msg[0].devices[0].pose, tagged);
  }

  lemma AlignTelescopes(g: Graph, msg: seq<SceneMsg>, d: Key, tagged: bool)
    requires Sound(g, tagged) && Telescopes(g, d) && Complete(msg) && msg[0].devices[0].key == d
    ensures Telescopes(Next(g, Align(msg), tagged), d)
  {
    var s, pose := msg[0].key, msg[0].devices[0].pose;
    hide Next, Sound, HasReg, Registered, NewestAligned, OthersKept, Telescopes, EdgesOk, KeysUnique, RegsAligned;
    if HasReg(g, s, d) {
      AlignIsAligned(g, msg, tagged);
      AlignedTelescopes(g, Next(g, Align(msg), tagged), s, d, pose);
    } else {
      AlignExactly(g, msg, tagged);
    }
  }

  lemma DeregisterTelescopes(g: Graph, msg: seq<SceneMsg>, d: Key, tagged: bool)
    requires Sound(g, tagged) && Telescopes(g, d) && Complete(msg) && msg[0].devices[0].key != d
    ensures Telescopes(Next(g, Deregister(msg), tagged), d)
  {
    DeregisterExactly(g, msg, tagged);
    hide Sound, Next, Telescopes, Registered, HasReg;
    GrowthKeepsTelescopes(g, Next(g, Deregister(msg), tagged), d);
  }

  // ---------------------------------------------------------------- every run, every path

  ghost predicate Runs(g: Graph, reqs: seq<Request>, d: Key, tagged: bool) {
    IdsAreNew(g, reqs, tagged) && forall req <- reqs :: OnlyAligns(req, d)
  }

  lemma {:induction false} RunTelescopes(g: Graph, reqs: seq<Request>, d: Key, tagged: bool)
    requires Sound(g, tagged) && Telescopes(g, d) && Runs(g, reqs, d, tagged)
    ensures Sound(Run(g, reqs, tagged), tagged) && Telescopes(Run(g, reqs, tagged), d)
    decreases reqs
  {
    hide Sound, Next, IdIsNew, Telescopes;
    if reqs != [] {
      var req, h := reqs[0], Next(g, reqs[0], tagged);
      NextKeepsSound(g, req, tagged);
      assert OnlyAligns(req, d);
      if !Complete(req.msg) {
        assert h == g by { NextOfIncomplete(g, req, tagged); }
      } else if req.Register? {
        RegisterTelescopes(g, req, d, tagged);
      } else if req.Deregister? {
        DeregisterTelescopes(g, req.msg, d, tagged);
      } else {
        AlignTelescopes(g, req.msg, d, tagged);
      }
      RunTelescopes(h, reqs[1..], d, tagged);
    }
  }

  lemma NextOfIncomplete(g: Graph, req: Request, tagged: bool)
    requires !Complete(req.msg)
    ensures Next(g, req, tagged) == g
  {
  }

  /** When links are tagged every link is the newest of its pair, so nothing need be asked of a path. */
  lemma TaggedAreNewest(g: Graph, k: nat)
    requires Sound(g, true) && k < |g.links|
    ensures Newest(g.links, k)
  {
  }
}
