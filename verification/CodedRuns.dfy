/** When all links are right after a whole run, with links as the code leaves them. */
module CodedRuns {
  import opened Poses
  import opened SceneGraph
  import opened GraphProofs
  import opened SceneLinks
  import opened Registration
  import opened RegistrationProofs
  import opened RegistrationTheorems
  import opened Telescoping
  import opened LinkPaths
  import opened UntaggedLinks

  /** The request is no alignment of a registered device, or it leaves the device where it was, or no
      link touches the scene. */
  ghost predicate KeepsTelling(g: Graph, req: Request) {
    req.Align? && Complete(req.msg) && HasReg(g, req.msg[0].key, req.msg[0].devices[0].key) ==>
      || Registered(g, req.msg[0].key, req.msg[0].devices[0].key, req.msg[0].devices[0].pose)
      || forall l <- g.links :: !Touches(g, l, req.msg[0].key)
  }

  ghost predicate AllKeepTelling(g: Graph, reqs: seq<Request>)
    decreases reqs
  {
    reqs != [] ==> KeepsTelling(g, reqs[0]) && AllKeepTelling(Next(g, reqs[0], false), reqs[1..])
  }

  // ---------------------------------------------------------------- requests that keep the links

  lemma TellsAgree(g: Graph, h: Graph, l: Link, d: Key)
    requires Ok(g) && Ok(h) && g.scenes <= h.scenes && EndsRegistered(g, l, d)
    requires forall r, p :: Registered(g, r, d, p) ==> Registered(h, r, d, p)
    ensures Tells(g, l, d) <==> Tells(h, l, d)
  {
    hide Registered, Toward, Ok, HasReg, Tells;
    var from, to := g.scenes[l.src], g.scenes[l.dst];
    HasRegIs(g, from, d);
    HasRegIs(g, to, d);
    var a, b :| Registered(g, from, d, a) && Registered(g, to, d, b);
    TellsExactly(g, l, d, a, b);
    TellsExactly(h, l, d, a, b);
  }

  lemma GrowthTells(g: Graph, h: Graph, d: Key)
    requires Ok(g) && Ok(h) && Telescopes(g, d) && h.links == g.links && g.scenes <= h.scenes
    requires forall r, p :: Registered(g, r, d, p) ==> Registered(h, r, d, p)
    ensures AllTell(g, d) <==> AllTell(h, d)
  {
    hide Ok, Registered, Tells, EndsRegistered, Telescopes;
    OkParts(g);
    EndsAreRegistered(g, d);
    forall l <- g.links
      ensures Tells(g, l, d) <==> Tells(h, l, d)
    {
      TellsAgree(g, h, l, d);
    }
  }

  lemma RegisterTells(g: Graph, req: Request, d: Key)
    requires Sound(g, false) && IdIsNew(g, req) && Telescopes(g, d) && req.Register?
    ensures AllTell(Next(g, req, false), d) <==> AllTell(g, d)
  {
    hide Telescopes, Sound, Registered, RegisterDevice, Ok, LinksOk, AllTell;
    UnfoldSound(g, false);
    if Complete(req.msg) && !NoKey(g, req) {
      if req.msg[0].key == "" {
        EmptySceneKeyRegistersNothing(g, req, false);
      } else {
        RegisterExactly(g, req, false);
      }
      NextKeepsSound(g, req, false);
      UnfoldSound(Next(g, req, false), false);
      GrowthTells(g, Next(g, req, false), d);
    }
  }

  lemma DeregisterTells(g: Graph, msg: seq<SceneMsg>, d: Key)
    requires Sound(g, false) && Telescopes(g, d) && Complete(msg) && msg[0].devices[0].key != d
    ensures AllTell(Next(g, Deregister(msg), false), d) <==> AllTell(g, d)
  {
    hide Sound, Next, Telescopes, Registered, HasReg, AllTell, Ok, LinksOk;
    DeregisterExactly(g, msg, false);
    NextKeepsSound(g, Deregister(msg), false);
    UnfoldSound(g, false);
    UnfoldSound(Next(g, Deregister(msg), false), false);
    GrowthTells(g, Next(g, Deregister(msg), false), d);
  }

  // ---------------------------------------------------------------- alignments

  /** A link that does not touch s tells after the alignment at s what it told before. */
  lemma ToldBefore(g: Graph, h: Graph, l: Link, s: Key, d: Key, pose: Pose)
    requires h.scenes == g.scenes && RegsAligned(g, h, s, d, pose) && Tells(h, l, d) && !Touches(g, l, s)
    ensures Tells(g, l, d)
  {
    hide Registered, Toward;
    var a, b :|
      Registered(h, h.scenes[l.src], d, a) && Registered(h, h.scenes[l.dst], d, b) && l.pose == Toward(a, b);
    assert Registered(g, g.scenes[l.src], d, a) && Registered(g, g.scenes[l.dst], d, b);
  }

  /** An alignment that leaves the device where it is leaves what links tell. */
  lemma ToldInPlace(g: Graph, h: Graph, l: Link, s: Key, d: Key, pose: Pose)
    requires Ok(g) && h.scenes == g.scenes && RegsAligned(g, h, s, d, pose) && Tells(h, l, d)
    requires Registered(g, s, d, pose)
    ensures Tells(g, l, d)
  {
    hide Registered, Toward, Ok;
    var a, b :|
      Registered(h, h.scenes[l.src], d, a) && Registered(h, h.scenes[l.dst], d, b) && l.pose == Toward(a, b);
    assert Registered(g, g.scenes[l.src], d, a) && Registered(g, g.scenes[l.dst], d, b);
  }

  lemma SamePairTouches(g: Graph, l: Link, m: Link, s: Key)
    requires SamePair(l, m)
    ensures Touches(g, l, s) <==> Touches(g, m, s)
  {
  }

  /** A move that made a wrong link right would make the newest link of its pair wrong. */
  lemma WrongStaysWrong(g: Graph, h: Graph, s: Key, d: Key, was: Pose, pose: Pose)
    requires Ok(g) && Ok(h) && Grown(g, h, s, d) && RegsAligned(g, h, s, d, pose)
    requires Telescopes(g, d) && Registered(g, s, d, was) && AllTell(h, d)
    ensures AllTell(g, d)
  {
    hide Ok, Tells, Touches, Registered, RegsAligned, EachSceneLinked, ApartFrom, SamePair, Newest;
    OkParts(g);
    assert forall k :: 0 <= k < |g.links| ==> h.links[k] == g.links[k] && h.links[k] in h.links;
    forall l <- g.links
      ensures Tells(g, l, d)
    {
      var k :| 0 <= k < |g.links| && g.links[k] == l;
      assert Tells(h, h.links[k], d);
      if Touches(g, l, s) {
        var m := NewestOfPair(g.links, k);
        assert m < |g.links| by { NewestIsLink(g.links, m); }
        assert Tells(h, h.links[m], d) && g.links[m] in g.links;
        SamePairTouches(g, l, g.links[m], s);
        MovedEnd(g, h, g.links[m], s, d, was, pose);
        ToldInPlace(g, h, l, s, d, pose);
      } else {
        ToldBefore(g, h, l, s, d, pose);
      }
    }
  }

  lemma NewestIsLink(links: seq<Link>, m: nat)
    requires Newest(links, m)
    ensures m < |links|
  {
  }

  lemma AlignTells(g: Graph, msg: seq<SceneMsg>, d: Key)
    requires Sound(g, false) && Telescopes(g, d) && Complete(msg) && msg[0].devices[0].key == d
    ensures AllTell(Next(g, Align(msg), false), d) <==> AllTell(g, d) && KeepsTelling(g, Align(msg))
  {
    hide Next, Sound, HasReg, Registered, Telescopes, AllTell, Touches, Ok, LinksOk, Grown, NewOnesTell, Aligned;
    var s, pose, h := msg[0].key, msg[0].devices[0].pose, Next(g, Align(msg), false);
    if !HasReg(g, s, d) {
      AlignExactly(g, msg, false);
    } else {
      HasRegIs(g, s, d);
      var was :| Registered(g, s, d, was);
      UnfoldSound(g, false);
      if AllTell(g, d) {
        CodedKeepsAllTelling(g, msg, was);
        if Registered(g, s, d, pose) {
          RegisteredOnce(g, s, d, was, pose);
        }
      } else if AllTell(h, d) {
        CodedAlignment(g, msg);
        NextKeepsSound(g, Align(msg), false);
        UnfoldSound(h, false);
        AlignedRegs(g, h, s, d, pose);
        WrongStaysWrong(g, h, s, d, was, pose);
      }
    }
  }

  lemma AlignedRegs(g: Graph, h: Graph, s: Key, d: Key, pose: Pose)
    requires Aligned(g, h, s, d, pose)
    ensures RegsAligned(g, h, s, d, pose)
  {
  }

  // ---------------------------------------------------------------- runs

  lemma StepTells(g: Graph, req: Request, d: Key)
    requires Sound(g, false) && IdIsNew(g, req) && Telescopes(g, d) && OnlyAligns(req, d)
    ensures AllTell(Next(g, req, false), d) <==> AllTell(g, d) && KeepsTelling(g, req)
  {
    hide Next, Sound, Telescopes, AllTell, IdIsNew;
    if !Complete(req.msg) {
      NextOfIncomplete(g, req, false);
    } else if req.Register? {
      RegisterTells(g, req, d);
    } else if req.Deregister? {
      DeregisterTells(g, req.msg, d);
    } else {
      AlignTells(g, req.msg, d);
    }
  }

  lemma {:induction false} RunTells(g: Graph, reqs: seq<Request>, d: Key)
    requires Sound(g, false) && Telescopes(g, d) && Runs(g, reqs, d, false)
    ensures AllTell(Run(g, reqs, false), d) <==> AllTell(g, d) && AllKeepTelling(g, reqs)
    decreases reqs
  {
    hide Next, Sound, Telescopes, AllTell, IdIsNew, KeepsTelling, OnlyAligns;
    if reqs != [] {
      var h := Next(g, reqs[0], false);
      assert OnlyAligns(reqs[0], d);
      StepTells(g, reqs[0], d);
      OneStep(g, reqs[0], d);
      RunTells(h, reqs[1..], d);
    }
  }

  lemma OneStep(g: Graph, req: Request, d: Key)
    requires Sound(g, false) && Telescopes(g, d) && IdIsNew(g, req) && OnlyAligns(req, d)
    ensures Sound(Next(g, req, false), false) && Telescopes(Next(g, req, false), d)
  {
    hide Next, Sound, Telescopes, IdIsNew, OnlyAligns;
    assert IdsAreNew(Next(g, req, false), [], false);
    assert [req][1..] == [] && Run(Next(g, req, false), [], false) == Next(g, req, false);
    assert Run(g, [req], false) == Next(g, req, false);
    RunTelescopes(g, [req], d, false);
  }

  /** After any run as coded in which only device d is aligned and d is never deregistered, all links
      are right exactly when each alignment in it left the device where it was or found no link at
      its scene. One other alignment leaves a wrong link, whatever comes after it. */
  lemma CodedRunTellsExactly(reqs: seq<Request>, d: Key)
    requires Runs(EMPTY, reqs, d, false)
    ensures AllTell(Run(EMPTY, reqs, false), d) <==> AllKeepTelling(EMPTY, reqs)
  {
    hide Run, Runs, AllKeepTelling, Sound, Telescopes, Tells;
    EmptyIsSound(false);
    EmptyTelescopes(d);
    RunTells(EMPTY, reqs, d);
  }

  /** And exactly then do all paths fold right. */
  lemma CodedPathsExactly(reqs: seq<Request>, d: Key)
    requires Runs(EMPTY, reqs, d, false)
    requires forall l <- Run(EMPTY, reqs, false).links :: IsStored(l)
    ensures var g := Run(EMPTY, reqs, false); AllFold(g, LinksOf(g), d) <==> AllKeepTelling(EMPTY, reqs)
  {
    hide Run, Runs, AllKeepTelling, AllFold, AllTell, IsStored;
    AllPathsExactly(reqs, d, false);
    CodedRunTellsExactly(reqs, d);
  }
}
