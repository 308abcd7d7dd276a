/** What every run of registrations, deregistrations and alignments keeps. */
module RegistrationProofs {
  import opened Poses
  import opened SceneGraph
  import opened GraphProofs
  import opened SceneLinks
  import opened Registration

  /** The invariant of a run: the graph is well-formed, no scene has an empty key and every link is
      tagged as the mode says. */
  ghost predicate Sound(g: Graph, tagged: bool) {
    Ok(g) && "" !in g.scenes && LinksOk(g, tagged)
  }

  /** A generated scene key, where one is used, is a key that no scene has. */
  predicate IdIsNew(g: Graph, req: Request) {
    req.Register? && Complete(req.msg) && req.msg[0].key == "" ==> req.sceneId !in g.scenes
  }

  // ---------------------------------------------------------------- registering

  lemma HasRegIs(g: Graph, s: Key, d: Key)
    ensures HasReg(g, s, d) <==> d in DeviceKeysOf(g, g.regs, s)
    ensures HasReg(g, s, d) <==> exists p :: Registered(g, s, d, p)
  {
    DeviceKeysExactly(g, g.regs, s, d);
    if HasReg(g, s, d) {
      var r :| r in g.regs && IsRegOf(g, r, s, d);
      assert Registered(g, s, d, r.pose);
    }
  }

  lemma CreateKeepsLinks(g: Graph, key: Key, tagged: bool)
    requires Sound(g, tagged) && key !in g.scenes && key != ""
    ensures Sound(CreateScene(g, key), tagged)
  {
    CreateKeepsOk(g, key);
    hide OneRegPerKey, OneEdgePerDevice;
    var h := CreateScene(g, key);
    assert forall l <- g.links :: h.scenes[l.src] == g.scenes[l.src];
  }

  /** Registering under a key that no scene has does nothing. */
  lemma RegisterNowhere(g: Graph, s: Key, d: Device, pose: Pose)
    requires s !in g.scenes
    ensures RegisterDevice(g, s, d, pose) == g
  {
    MatchesExactly(g.scenes, s);
  }

  lemma RegisterKeepsSound(g: Graph, s: Key, d: Device, pose: Pose, tagged: bool)
    requires Sound(g, tagged) && !HasReg(g, s, d.key)
    ensures Sound(RegisterDevice(g, s, d, pose), tagged)
  {
    if i: nat :| i < |g.scenes| && g.scenes[i] == s {
      RegisterKeepsOk(g, i, d, pose);
      RegisterIsOneEdge(g, i, d, pose);
      hide Ok, RegisterDevice, HasReg;
    } else {
      RegisterNowhere(g, s, d, pose);
    }
  }

  lemma NewSceneHasNone(g: Graph, key: Key, s: Key, d: Key)
    requires Ok(g) && key !in g.scenes && s !in g.scenes
    ensures !HasReg(CreateScene(g, key), s, d)
  {
    CreateKeepsOk(g, key);
    HasRegIs(CreateScene(g, key), s, d);
    HasRegIs(g, s, d);
  }

  lemma RegisterStep(g: Graph, req: Request, tagged: bool)
    requires Sound(g, tagged) && IdIsNew(g, req) && req.Register? && Complete(req.msg)
    ensures Sound(Registering(g, req), tagged)
  {
    hide Sound, RegisterDevice, CreateScene, HasReg, Ok;
    var s := req.msg[0].key;
    if !NoKey(g, req) {
      assert Ok(g) by { UnfoldSound(g, tagged); }
      if s !in g.scenes {
        CreateKeepsLinks(g, SceneKey(req), tagged);
        NewSceneHasNone(g, SceneKey(req), s, DeviceKey(req));
        RegisterKeepsSound(CreateScene(g, SceneKey(req)), s, DeviceNode(req), Still(), tagged);
      } else if DeviceKey(req) !in DeviceKeysOf(g, g.regs, s) {
        HasRegIs(g, s, DeviceKey(req));
        RegisterKeepsSound(g, s, DeviceNode(req), Still(), tagged);
      }
    }
  }

  lemma UnfoldSound(g: Graph, tagged: bool)
    ensures Sound(g, tagged) <==> Ok(g) && "" !in g.scenes && LinksOk(g, tagged)
  {
  }

  // ---------------------------------------------------------------- aligning

  /** The rows of the loop: one per scene, all of them scenes of the graph. */
  lemma {:induction false} RowsAreOk(g: Graph, regs: seq<Reg>, dev: Key)
    requires EdgesOk(g) && KeysUnique(g) && (forall r <- regs :: r in g.regs)
    requires forall i, j :: 0 <= i < j < |regs| && regs[i].scene == regs[j].scene ==>
               g.devices[regs[i].dev].key != g.devices[regs[j].dev].key
    ensures RowsOk(g, RowsOf(g, regs, dev))
  {
    if regs != [] {
      var n := |regs| - 1;
      RowsAreOk(g, regs[..n], dev);
      var rows, front := RowsOf(g, regs, dev), RowsOf(g, regs[..n], dev);
      if rows != front {
        forall a | 0 <= a < |front|
          ensures front[a].scene != rows[|front|].scene
        {
          RowsExactly(g, regs[..n], dev, front[a].scene, front[a].pose);
          assert Row(front[a].scene, front[a].pose) in front;
          var r :| r in regs[..n] && IsRegOf(g, r, front[a].scene, dev);
          assert regs[n] in regs;
        }
      }
    }
  }

  lemma UpdateKeepsSound(g: Graph, dev: Key, s: Key, pose: Pose, tagged: bool)
    requires Sound(g, tagged)
    ensures Sound(UpdateRegistration(g, dev, s, pose), tagged)
  {
    UpdateKeepsOk(g, dev, s, pose);
    hide Ok;
  }

  /** The rows of an alignment are the scenes the device is registered to, with the transforms it
      has there after the update. */
  lemma AlignRows(g: Graph, dev: Key, s: Key, pose: Pose, tagged: bool)
    requires Sound(g, tagged)
    ensures var h := UpdateRegistration(g, dev, s, pose); var rows := RowsOf(h, h.regs, dev);
      && RowsOk(h, rows) && LinksOk(h, tagged)
      && forall r, p :: Row(r, p) in rows <==> Registered(h, r, dev, p)
  {
    UpdateKeepsSound(g, dev, s, pose, tagged);
    var h := UpdateRegistration(g, dev, s, pose);
    hide UpdateRegistration;
    RowsAreOk(h, h.regs, dev);
    forall r, p
      ensures Row(r, p) in RowsOf(h, h.regs, dev) <==> Registered(h, r, dev, p)
    {
      RowsExactly(h, h.regs, dev, r, p);
    }
  }

  lemma OkIgnoresLinks(g: Graph, h: Graph, tagged: bool)
    requires Sound(g, tagged) && h == g.(links := h.links) && LinksOk(h, tagged)
    ensures Sound(h, tagged)
    ensures forall s, d, p :: Registered(h, s, d, p) <==> Registered(g, s, d, p)
  {
    assert forall r, s, d :: IsRegOf(h, r, s, d) == IsRegOf(g, r, s, d);
  }

  lemma AlignStep(g: Graph, dev: Key, s: Key, pose: Pose, tagged: bool)
    requires Sound(g, tagged)
    ensures Sound(Aligning(g, dev, s, pose, tagged), tagged)
    ensures forall r, d, p :: Registered(Aligning(g, dev, s, pose, tagged), r, d, p) <==>
              Registered(UpdateRegistration(g, dev, s, pose), r, d, p)
  {
    UpdateKeepsSound(g, dev, s, pose, tagged);
    if dev in DeviceKeysOf(g, g.regs, s) {
      AlignRows(g, dev, s, pose, tagged);
      UpdatedRows(g, dev, s, pose);
      var h := UpdateRegistration(g, dev, s, pose);
      hide UpdateRegistration, Sound, LinksOk, RowsOk, Ok, Registered;
      RelinkIs(h, RowsOf(h, h.regs, dev), s, pose, tagged);
      OkIgnoresLinks(h, Relink(h, RowsOf(h, h.regs, dev), s, pose, tagged), tagged);
    }
  }

  // ---------------------------------------------------------------- every run

  lemma RemoveKeepsSound(g: Graph, dev: Key, s: Key, tagged: bool)
    requires Sound(g, tagged)
    ensures Sound(RemoveDevice(g, dev, s), tagged)
  {
    RemoveKeepsOk(g, dev, s);
    hide Ok;
  }

  /** One request keeps the invariant: unique scene keys, at most one registration per scene and
      device key, exactly one edge into each device node, links tagged and, when tagged, at most one
      per pair of scenes. */
  lemma NextKeepsSound(g: Graph, req: Request, tagged: bool)
    requires Sound(g, tagged) && IdIsNew(g, req)
    ensures Sound(Next(g, req, tagged), tagged)
  {
    hide Sound, Registering, RemoveDevice, Aligning, IdIsNew;
    if Complete(req.msg) {
      var d := req.msg[0].devices[0];
      if req.Register? {
        RegisterStep(g, req, tagged);
      } else if req.Deregister? {
        RemoveKeepsSound(g, d.key, req.msg[0].key, tagged);
      } else {
        AlignStep(g, d.key, req.msg[0].key, d.pose, tagged);
      }
    }
  }

  function Run(g: Graph, reqs: seq<Request>, tagged: bool): Graph
    decreases reqs
  {
    if reqs == [] then g else Run(Next(g, reqs[0], tagged), reqs[1..], tagged)
  }

  ghost predicate IdsAreNew(g: Graph, reqs: seq<Request>, tagged: bool)
    decreases reqs
  {
    reqs != [] ==> IdIsNew(g, reqs[0]) && IdsAreNew(Next(g, reqs[0], tagged), reqs[1..], tagged)
  }

  lemma EmptyIsSound(tagged: bool)
    ensures Sound(EMPTY, tagged)
  {
  }

  lemma {:induction false} RunKeepsSound(g: Graph, reqs: seq<Request>, tagged: bool)
    requires Sound(g, tagged) && IdsAreNew(g, reqs, tagged)
    ensures Sound(Run(g, reqs, tagged), tagged)
    decreases reqs
  {
    hide Sound, Next, IdIsNew;
    if reqs != [] {
      NextKeepsSound(g, reqs[0], tagged);
      RunKeepsSound(Next(g, reqs[0], tagged), reqs[1..], tagged);
    }
  }

  /** Any run from an empty graph, with or without empty keys in its messages. */
  lemma EveryRun(reqs: seq<Request>, tagged: bool)
    requires IdsAreNew(EMPTY, reqs, tagged)
    ensures Ok(Run(EMPTY, reqs, tagged)) && LinksOk(Run(EMPTY, reqs, tagged), tagged)
  {
    EmptyIsSound(tagged);
    RunKeepsSound(EMPTY, reqs, tagged);
  }
}
