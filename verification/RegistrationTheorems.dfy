/** What a registration, a deregistration and an alignment each do, and undo. */
module RegistrationTheorems {
  import opened Poses
  import opened SceneGraph
  import opened GraphProofs
  import opened SceneLinks
  import opened Registration
  import opened RegistrationProofs

  /** A device has one transform in a scene. */
  lemma RegisteredOnce(g: Graph, s: Key, d: Key, p: Pose, q: Pose)
    requires Ok(g) && Registered(g, s, d, p) && Registered(g, s, d, q)
    ensures p == q
  {
    hide OneEdgePerDevice;
    var i :| 0 <= i < |g.regs| && IsRegOf(g, g.regs[i], s, d) && g.regs[i].pose == p;
    var j :| 0 <= j < |g.regs| && IsRegOf(g, g.regs[j], s, d) && g.regs[j].pose == q;
    assert !(i < j) && !(j < i);
  }

  // ---------------------------------------------------------------- answers

  /** Every answer, from the request and the graph alone. An incomplete message is refused, or throws
      when it has no scene; a registration fails only for want of a key; a deregistration always
      succeeds; an alignment needs the registration. */
  lemma AnswersAre(g: Graph, req: Request)
    ensures req.msg == [] ==> Reply(g, req) == Thrown
    ensures req.msg != [] && req.msg[0].devices == [] ==> Reply(g, req) == Replied(122, [])
    ensures req.msg != [] && req.msg[0].devices != [] ==>
      var s, d := req.msg[0].key, req.msg[0].devices[0].key;
      match req
      case Register(_, deviceId, sceneId) =>
        if (d == "" && deviceId == "") || (s == "" && sceneId == "" && "" !in g.scenes)
        then Reply(g, req) == Replied(120, [])
        else Reply(g, req) == Replied(100, [if d == "" then deviceId else d])
      case Deregister(_) => Reply(g, req) == Replied(100, [])
      case Align(_) => Reply(g, req) == Replied(if HasReg(g, s, d) then 100 else 102, [])
  {
    if Complete(req.msg) {
      HasRegIs(g, req.msg[0].key, req.msg[0].devices[0].key);
    }
    hide HasReg, DeviceKeysOf;
  }

  // ---------------------------------------------------------------- registration

  /** A registration that is answered without error, under a key of the message, leaves the device
      registered there with the neutral transform, or with the one it already had; no other
      registration and no link changes. */
  lemma RegisterExactly(g: Graph, req: Request, tagged: bool)
    requires Sound(g, tagged) && req.Register? && Complete(req.msg) && req.msg[0].key != "" && DeviceKey(req) != ""
    ensures var h := Next(g, req, tagged); var s, d := req.msg[0].key, DeviceKey(req);
      && Reply(g, req) == Replied(NO_ERROR, [d])
      && h.scenes == (if s in g.scenes then g.scenes else g.scenes + [s]) && h.links == g.links
      && forall r, e, p :: Registered(h, r, e, p) <==>
           Registered(g, r, e, p) || (r == s && e == d && p == Still() && !HasReg(g, s, d))
  {
    var s, d := req.msg[0].key, DeviceKey(req);
    var h := Next(g, req, tagged);
    UnfoldSound(g, tagged);
    HasRegIs(g, s, d);
    hide Sound, Still, LinksOk, HasReg;
    if s !in g.scenes {
      var m := CreateScene(g, s);
      CreateKeepsOk(g, s);
      NewSceneHasNone(g, s, s, d);
      HasRegIs(m, s, d);
      RegisterIsOneEdge(m, |g.scenes|, DeviceNode(req), Still());
      RegisterAddsOne(m, |g.scenes|, DeviceNode(req), Still());
      hide RegisterDevice, Ok, Registered;
    } else if d !in DeviceKeysOf(g, g.regs, s) {
      var i: nat :| i < |g.scenes| && g.scenes[i] == s;
      RegisterIsOneEdge(g, i, DeviceNode(req), Still());
      RegisterAddsOne(g, i, DeviceNode(req), Still());
      hide RegisterDevice, Ok, Registered;
    }
  }

  /** What is stored of the device: its node, which is new, holds the data of the message, and every
      node that was there is as it was. */
  lemma RegisterStores(g: Graph, req: Request, tagged: bool) returns (r: Reg)
    requires Sound(g, tagged) && req.Register? && Complete(req.msg) && req.msg[0].key != ""
    requires req.msg[0].devices[0].key != "" || req.deviceId != ""
    requires !HasReg(g, req.msg[0].key,
                     if req.msg[0].devices[0].key == "" then req.deviceId else req.msg[0].devices[0].key)
    ensures var h := Next(g, req, tagged); var d := req.msg[0].devices[0];
      && r in h.regs && r.scene < |h.scenes| && h.scenes[r.scene] == req.msg[0].key && r.pose == Still()
      && r.dev in h.devices && r.dev !in g.devices
      && h.devices[r.dev].key == (if d.key == "" then req.deviceId else d.key)
      && h.devices[r.dev].connection == d.connection
      && h.devices[r.dev].host == d.host
      && h.devices[r.dev].port == d.port
      && h.devices.Keys == g.devices.Keys + {r.dev}
      && forall e <- g.devices :: h.devices[e] == g.devices[e]
  {
    hide Next, Sound, Still, HasReg, Ok, RegisterDevice;
    var m, i := RegisterIsEdge(g, req, tagged);
    r := EdgeStores(m, i, DeviceNode(req));
    NodeIs(req);
  }

  lemma NodeIs(req: Request)
    requires req.Register? && Complete(req.msg)
    ensures var d := req.msg[0].devices[0];
      DeviceNode(req) == Device(if d.key == "" then req.deviceId else d.key, d.connection, d.host, d.port)
  {
  }

  /** The new edge starts in a scene of the graph, or in one that is created first. */
  lemma RegisterIsEdge(g: Graph, req: Request, tagged: bool) returns (m: Graph, i: nat)
    requires Sound(g, tagged) && req.Register? && Complete(req.msg) && req.msg[0].key != "" && DeviceKey(req) != ""
    requires !HasReg(g, req.msg[0].key, DeviceKey(req))
    ensures Ok(m) && m.devices == g.devices && i < |m.scenes| && m.scenes[i] == req.msg[0].key
    ensures m.regs == g.regs && g.scenes <= m.scenes
    ensures Next(g, req, tagged) == RegisterDevice(m, m.scenes[i], DeviceNode(req), Still())
  {
    hide Sound, Still, LinksOk, HasReg, Ok, RegisterDevice, DeviceNode;
    var s := req.msg[0].key;
    UnfoldSound(g, tagged);
    HasRegIs(g, s, DeviceKey(req));
    m := g;
    if s !in g.scenes {
      m, i := CreateScene(g, s), |g.scenes|;
      CreateKeepsOk(g, s);
    } else {
      i :| 0 <= i < |g.scenes| && g.scenes[i] == s;
    }
  }

  lemma EdgeStores(g: Graph, i: nat, d: Device) returns (r: Reg)
    requires Ok(g) && i < |g.scenes|
    ensures var h := RegisterDevice(g, g.scenes[i], d, Still());
      && h.scenes == g.scenes && r == Reg(i, g.next, Still()) && r in h.regs && r.dev !in g.devices
      && h.devices == g.devices[r.dev := d]
  {
    hide RegisterDevice, Still, OneEdgePerDevice, OneRegPerKey;
    RegisterIsOneEdge(g, i, d, Still());
    r := Reg(i, g.next, Still());
    assert RegisterDevice(g, g.scenes[i], d, Still()).regs[|g.regs|] == r;
  }

  /** Deregistration takes exactly the nodes of the registration, and alignment takes none; neither
      writes the data of a node. */
  lemma OthersKeepNodes(g: Graph, msg: seq<SceneMsg>, tagged: bool)
    requires Sound(g, tagged) && Complete(msg)
    ensures Next(g, Align(msg), tagged).devices == g.devices
    ensures var h := Next(g, Deregister(msg), tagged);
      && (forall e :: e in h.devices <==>
            e in g.devices && !exists r <- g.regs :: r.dev == e && IsRegOf(g, r, msg[0].key, msg[0].devices[0].key))
      && forall e <- h.devices :: h.devices[e] == g.devices[e]
  {
    hide Sound, Still, Relink, RowsOf, DeviceKeysOf, IsRegOf, Without;
    var d := msg[0].devices[0];
    var m := UpdateRegistration(g, d.key, msg[0].key, d.pose);
    RelinkKeepsNodes(m, RowsOf(m, m.regs, d.key), msg[0].key, d.pose, tagged);
  }

  lemma {:induction false} RelinkKeepsNodes(g: Graph, rows: seq<Row>, s: Key, inS: Pose, tagged: bool)
    ensures Relink(g, rows, s, inS, tagged).devices == g.devices
    ensures Relink(g, rows, s, inS, tagged).regs == g.regs
  {
    if rows != [] {
      RelinkKeepsNodes(g, rows[..|rows| - 1], s, inS, tagged);
    }
  }

  /** Registering the same device to the same scene again changes nothing. */
  lemma RegisterTwice(g: Graph, req: Request, tagged: bool)
    requires Sound(g, tagged) && req.Register? && Complete(req.msg)
    requires req.msg[0].key != "" && req.msg[0].devices[0].key != ""
    ensures var h := Next(g, req, tagged);
      Next(h, req, tagged) == h && Reply(h, req) == Reply(g, req)
  {
    hide Sound, Next, Registered, Still, HasReg;
    var s, d := req.msg[0].key, DeviceKey(req);
    var h := Next(g, req, tagged);
    RegisterExactly(g, req, tagged);
    HasRegIs(g, s, d);
    HasRegIs(h, s, d);
    if !HasReg(g, s, d) {
      assert Registered(h, s, d, Still());
    }
    AlreadyRegistered(h, req, tagged);
  }

  lemma AlreadyRegistered(g: Graph, req: Request, tagged: bool)
    requires req.Register? && Complete(req.msg) && DeviceKey(req) != "" && req.msg[0].key in g.scenes
    requires HasReg(g, req.msg[0].key, DeviceKey(req))
    ensures Next(g, req, tagged) == g && Reply(g, req) == Replied(NO_ERROR, [DeviceKey(req)])
  {
    hide RegisterDevice, HasReg;
    HasRegIs(g, req.msg[0].key, DeviceKey(req));
  }

  /** With an empty scene key the answer reports success, but the device is registered nowhere: the
      scene was created under a generated key and the registration then looks for the empty one. */
  lemma EmptySceneKeyRegistersNothing(g: Graph, req: Request, tagged: bool)
    requires Sound(g, tagged) && req.Register? && Complete(req.msg) && req.msg[0].key == ""
    requires DeviceKey(req) != "" && req.sceneId != "" && IdIsNew(g, req)
    ensures Reply(g, req) == Replied(NO_ERROR, [DeviceKey(req)])
    ensures Next(g, req, tagged) == CreateScene(g, req.sceneId)
    ensures forall s, d, p :: Registered(Next(g, req, tagged), s, d, p) <==> Registered(g, s, d, p)
  {
    CreateKeepsOk(g, req.sceneId);
    RegisterNowhere(CreateScene(g, req.sceneId), "", DeviceNode(req), Still());
    hide Ok, LinksOk, RegisterDevice, Registered;
  }

  // ---------------------------------------------------------------- deregistration

  /** Deregistration removes exactly the one registration, if there is one, with its device node;
      the device's other registrations, those of other devices, the scenes and the links stay. */
  lemma DeregisterExactly(g: Graph, msg: seq<SceneMsg>, tagged: bool)
    requires Sound(g, tagged) && Complete(msg)
    ensures var h := Next(g, Deregister(msg), tagged); var s, d := msg[0].key, msg[0].devices[0].key;
      && Reply(g, Deregister(msg)) == Replied(NO_ERROR, [])
      && h.scenes == g.scenes && h.links == g.links
      && (forall r, e, p :: Registered(h, r, e, p) <==> Registered(g, r, e, p) && !(r == s && e == d))
      && |h.regs| == |g.regs| - if HasReg(g, s, d) then 1 else 0
  {
    RemoveTakesOne(g, msg[0].devices[0].key, msg[0].key);
    RemoveCount(g, msg[0].devices[0].key, msg[0].key);
    hide Registered, Ok, LinksOk;
  }

  /** Registering a device where it was not registered and then deregistering it brings back exactly
      the registrations there were. */
  lemma DeregisterUndoesRegister(g: Graph, req: Request, tagged: bool)
    requires Sound(g, tagged) && req.Register? && Complete(req.msg) && req.msg[0].key != ""
    requires req.msg[0].devices[0].key != "" && !HasReg(g, req.msg[0].key, req.msg[0].devices[0].key)
    ensures var h := Next(Next(g, req, tagged), Deregister(req.msg), tagged);
      && h.links == g.links
      && forall r, e, p :: Registered(h, r, e, p) <==> Registered(g, r, e, p)
  {
    var m := Next(g, req, tagged);
    assert IdIsNew(g, req);
    NextKeepsSound(g, req, tagged);
    RegisterExactly(g, req, tagged);
    DeregisterExactly(m, req.msg, tagged);
    HasRegIs(g, req.msg[0].key, req.msg[0].devices[0].key);
    hide Sound, Next, Registered;
  }

  // ---------------------------------------------------------------- alignment

  /** An alignment that finds no registration answers NOT_FOUND and changes nothing; one that finds
      it sets that transform and no other. */
  lemma AlignExactly(g: Graph, msg: seq<SceneMsg>, tagged: bool)
    requires Sound(g, tagged) && Complete(msg)
    ensures var h := Next(g, Align(msg), tagged); var s, d := msg[0].key, msg[0].devices[0].key;
      && (Reply(g, Align(msg)) == Replied(if HasReg(g, s, d) then NO_ERROR else NOT_FOUND, []))
      && (!HasReg(g, s, d) ==> h == g)
      && (forall r, e, p :: Registered(h, r, e, p) <==>
            if r == s && e == d then HasReg(g, s, d) && p == msg[0].devices[0].pose else Registered(g, r, e, p))
  {
    var s, d, pose := msg[0].key, msg[0].devices[0].key, msg[0].devices[0].pose;
    AlignStep(g, d, s, pose, tagged);
    UpdateSetsOne(g, d, s, pose);
    HasRegIs(g, s, d);
    hide Registered, Sound;
    if !HasReg(g, s, d) {
      UpdateNothing(g, d, s, pose);
      hide HasReg, UpdateRegistration;
    }
  }

  lemma UpdateNothing(g: Graph, d: Key, s: Key, pose: Pose)
    requires !HasReg(g, s, d)
    ensures UpdateRegistration(g, d, s, pose) == g
  {
    assert forall r <- g.regs :: !IsRegOf(g, r, s, d);
    assert UpdateRegistration(g, d, s, pose).regs == g.regs;
  }

  /** The link joins s and another scene where the device is registered. */
  ghost predicate Concerned(g: Graph, l: Link, s: Key, d: Key) {
    exists r :: r != s && HasReg(g, r, d) && Between(g, l, r, s)
  }

  /** The newest link between s and every other scene the device is registered to carries the
      transform from that scene to s. */
  ghost predicate NewestAligned(g: Graph, h: Graph, s: Key, d: Key, pose: Pose) {
    forall r, p :: r != s && Registered(g, r, d, p) ==> NewestCarries(h, r, s, Toward(p, pose))
  }

  /** Links keep their places and ends; a link that joins no such pair is as it was, and every new
      link joins one. */
  ghost predicate OthersKept(g: Graph, h: Graph, s: Key, d: Key) {
    && |g.links| <= |h.links|
    && (forall k :: 0 <= k < |g.links| ==> h.links[k] == g.links[k].(pose := h.links[k].pose))
    && (forall k :: 0 <= k < |h.links| ==>
      Concerned(h, h.links[k], s, d) || (k < |g.links| && h.links[k] == g.links[k]))
  }

  /** What an alignment does to the links, in either mode; when they are tagged there is still at
      most one per pair of scenes. */
  lemma AlignLinks(g: Graph, msg: seq<SceneMsg>, tagged: bool)
    requires Sound(g, tagged) && Complete(msg) && HasReg(g, msg[0].key, msg[0].devices[0].key)
    ensures NewestAligned(g, Next(g, Align(msg), tagged), msg[0].key, msg[0].devices[0].key, msg[0].devices[0].pose)
    ensures OthersKept(g, Next(g, Align(msg), tagged), msg[0].key, msg[0].devices[0].key)
    ensures tagged ==> OneLinkPerPair(Next(g, Align(msg), tagged).links)
  {
    hide NewestAligned, OthersKept;
    AligningLinks(g, msg[0].key, msg[0].devices[0].key, msg[0].devices[0].pose, tagged);
  }

  /** An alignment is the loop over the rows of the device's other scenes. */
  lemma AligningIsRelink(g: Graph, s: Key, d: Key, pose: Pose, tagged: bool) returns (m: Graph, rows: seq<Row>)
    requires Sound(g, tagged) && HasReg(g, s, d)
    ensures Aligning(g, d, s, pose, tagged) == Relink(m, rows, s, pose, tagged)
    ensures m == g.(regs := m.regs) && RowsOk(m, rows) && LinksOk(m, tagged) && s in m.scenes
    ensures forall r, p :: r != s ==> (Row(r, p) in rows <==> Registered(g, r, d, p))
    ensures forall r, p :: Row(r, p) in rows <==> Registered(m, r, d, p)
  {
    HasRegIs(g, s, d);
    AlignRows(g, d, s, pose, tagged);
    UpdatedRows(g, d, s, pose);
    UpdateSetsOne(g, d, s, pose);
    m := UpdateRegistration(g, d, s, pose);
    rows := RowsOf(m, m.regs, d);
    hide Sound, RowsOk, LinksOk, Registered, DeviceKeysOf, RowsOf, Relink;
  }

  /** With tagged links: there is one link between s and each other scene of the device, and, whichever
      way it runs, it carries the transform from that scene to s. */
  lemma AlignTagged(g: Graph, msg: seq<SceneMsg>, r: Key, p: Pose)
    requires Sound(g, true) && Complete(msg) && HasReg(g, msg[0].key, msg[0].devices[0].key)
    requires r != msg[0].key && Registered(g, r, msg[0].devices[0].key, p)
    ensures var h := Next(g, Align(msg), true); var s := msg[0].key;
      && (exists l <- h.links :: Between(h, l, r, s))
      && forall l <- h.links :: Between(h, l, r, s) ==> Carries(h, l, r, s, Toward(p, msg[0].devices[0].pose))
  {
    hide Next, Sound, HasReg, Registered, Toward, Carries, Between;
    AlignLinks(g, msg, true);
    var h := Next(g, Align(msg), true);
    assert NewestCarries(h, r, msg[0].key, Toward(p, msg[0].devices[0].pose));
    forall l <- h.links | Between(h, l, r, msg[0].key)
      ensures Carries(h, l, r, msg[0].key, Toward(p, msg[0].devices[0].pose))
    {
      var k :| 0 <= k < |h.links| && h.links[k] == l;
      assert Newest(h.links, k);
    }
  }

  lemma AligningLinks(g: Graph, s: Key, d: Key, pose: Pose, tagged: bool)
    requires Sound(g, tagged) && HasReg(g, s, d)
    ensures NewestAligned(g, Aligning(g, d, s, pose, tagged), s, d, pose)
    ensures OthersKept(g, Aligning(g, d, s, pose, tagged), s, d)
    ensures tagged ==> OneLinkPerPair(Aligning(g, d, s, pose, tagged).links)
  {
    var m, rows := AligningIsRelink(g, s, d, pose, tagged);
    var h := Relink(m, rows, s, pose, tagged);
    RelinkIs(m, rows, s, pose, tagged);
    OkIgnoresRest(h, tagged);
    hide Aligning, Sound, RowsOk, LinksOk, Registered, NewestCarries, Toward, OneLinkPerPair, Relink;
    assert NewestAligned(g, h, s, d, pose);
    SameRegs(m, h);
    RowsKept(g, m, h, rows, s, d);
  }

  lemma RowsKept(g: Graph, m: Graph, h: Graph, rows: seq<Row>, s: Key, d: Key)
    requires m == g.(regs := m.regs) && OnlyRows(m, h, rows, s)
    requires forall r, p :: r != s && Row(r, p) in rows ==> Registered(h, r, d, p)
    ensures OthersKept(g, h, s, d)
  {
    hide Registered, Concerned;
    forall k | 0 <= k < |h.links| && !(k < |g.links| && h.links[k] == g.links[k])
      ensures Concerned(h, h.links[k], s, d)
    {
      if k < |g.links| {
        SameEndsTouch(m, h, m.links[k], h.links[k], rows, s);
      }
      TouchedIsConcerned(h, h.links[k], rows, s, d);
    }
  }

  lemma SameEndsTouch(g: Graph, h: Graph, l: Link, m: Link, rows: seq<Row>, s: Key)
    requires h.scenes == g.scenes && m == l.(pose := m.pose) && TouchesRow(g, l, rows, s)
    ensures TouchesRow(h, m, rows, s)
  {
    var row :| row in rows && row.scene != s && Between(g, l, row.scene, s);
    assert Between(h, m, row.scene, s);
  }

  lemma TouchedIsConcerned(g: Graph, l: Link, rows: seq<Row>, s: Key, d: Key)
    requires TouchesRow(g, l, rows, s) && forall r, p :: r != s && Row(r, p) in rows ==> Registered(g, r, d, p)
    ensures Concerned(g, l, s, d)
  {
    var row :| row in rows && row.scene != s && Between(g, l, row.scene, s);
    assert Row(row.scene, row.pose) in rows;
    HasRegIs(g, row.scene, d);
  }

  lemma OkIgnoresRest(h: Graph, tagged: bool)
    requires LinksOk(h, tagged)
    ensures tagged ==> OneLinkPerPair(h.links)
  {
  }

  lemma SameRegs(g: Graph, h: Graph)
    requires h == g.(links := h.links)
    ensures forall s, d, p :: Registered(h, s, d, p) <==> Registered(g, s, d, p)
  {
    assert forall r, s, d :: IsRegOf(h, r, s, d) == IsRegOf(g, r, s, d);
  }
}
