/** From a registration to the cache: what the loader reads for a scene is what its devices registered. */
module RegisteredAddresses {
  import opened Wrappers
  import opened Poses
  import opened SceneGraph
  import opened GraphProofs
  import opened Registration
  import opened RegistrationProofs
  import opened RegistrationTheorems
  import opened SceneLinks
  import C = DeviceCache

  /** The rows of the loader's query for a scene: the nodes of its devices, in stored order. */
  function RowsFor(g: Graph, regs: seq<Reg>, scene: Key): seq<C.Row> {
    if regs == [] then []
    else
      var n := |regs| - 1;
      var r := regs[n];
      RowsFor(g, regs[..n], scene) +
        if r.scene < |g.scenes| && g.scenes[r.scene] == scene && r.dev in g.devices
        then [C.Device(Some(g.devices[r.dev].host), Some(g.devices[r.dev].port))] else []
  }

  lemma {:induction false} RowsAgree(g: Graph, h: Graph, regs: seq<Reg>, scene: Key)
    requires forall r <- regs :: r.scene < |g.scenes| && r.dev in g.devices
    requires g.scenes <= h.scenes && forall e <- g.devices :: e in h.devices && h.devices[e] == g.devices[e]
    ensures RowsFor(h, regs, scene) == RowsFor(g, regs, scene)
  {
    if regs != [] {
      RowsAgree(g, h, regs[..|regs| - 1], scene);
      assert regs[|regs| - 1] in regs;
    }
  }

  lemma {:induction false} AllDevices(g: Graph, regs: seq<Reg>, scene: Key)
    ensures forall row <- RowsFor(g, regs, scene) :: row.Device?
  {
    if regs != [] {
      AllDevices(g, regs[..|regs| - 1], scene);
    }
  }

  lemma {:induction false} LeadingConcat(a: seq<C.Row>, b: seq<C.Row>)
    requires forall row <- a :: row.Device?
    ensures C.LeadingDevices(a + b) == C.LeadingDevices(a) + C.LeadingDevices(b)
  {
    hide C.LeadingDevices;
    if a == [] {
      assert a + b == b;
      NoRows();
      assert [] + C.LeadingDevices(b) == C.LeadingDevices(b);
    } else {
      LeadingConcat(a[1..], b);
      assert a[0] in a && (a + b)[0] == a[0] && (a + b)[1..] == a[1..] + b;
      var first := [(Or(a[0].hostname, ""), Or(a[0].port, 0))];
      FirstRow(a);
      FirstRow(a + b);
      Regroup(first, C.LeadingDevices(a[1..]), C.LeadingDevices(b));
    }
  }

  lemma NoRows()
    ensures C.LeadingDevices([]) == []
  {
  }

  lemma FirstRow(rows: seq<C.Row>)
    requires rows != [] && rows[0].Device?
    ensures C.LeadingDevices(rows) == [(Or(rows[0].hostname, ""), Or(rows[0].port, 0))] + C.LeadingDevices(rows[1..])
  {
  }

  lemma Regroup<T>(a: seq<T>, b: seq<T>, c: seq<T>)
    ensures (a + b) + c == a + (b + c)
  {
  }

  /** What the loader reads for a scene. */
  function AddressesOf(g: Graph, scene: Key): seq<(string, int)> {
    C.LeadingDevices(RowsFor(g, g.regs, scene))
  }

  lemma EdgeAddsRow(g: Graph, i: nat, d: Device, pose: Pose, scene: Key)
    requires EdgesOk(g) && i < |g.scenes|
    ensures var h := WithEdge(g, i, d, pose);
      RowsFor(h, h.regs, scene) ==
        RowsFor(g, g.regs, scene) +
        if g.scenes[i] == scene then [C.Device(Some(d.host), Some(d.port))] else []
  {
    hide EdgesOk;
    var h := WithEdge(g, i, d, pose);
    EdgesAreInside(g);
    RowsAgree(g, h, g.regs, scene);
    assert h.regs[..|h.regs| - 1] == g.regs && h.regs[|g.regs|] == Reg(i, g.next, pose);
  }

  lemma EdgesAreInside(g: Graph)
    requires EdgesOk(g)
    ensures forall r <- g.regs :: r.scene < |g.scenes| && r.dev in g.devices && r.dev != g.next
    ensures forall e <- g.devices :: e != g.next
  {
  }

  /** Registering a device that was not registered there puts its host and port, as the message gives
      them, at the end of what the loader reads for the scene, and changes nothing for other scenes. */
  lemma RegisterAddsAddress(g: Graph, req: Request, tagged: bool, scene: Key)
    requires Sound(g, tagged) && req.Register? && Complete(req.msg) && req.msg[0].key != "" && DeviceKey(req) != ""
    requires !HasReg(g, req.msg[0].key, DeviceKey(req))
    ensures AddressesOf(Next(g, req, tagged), scene) ==
            AddressesOf(g, scene) +
            if scene == req.msg[0].key then [(req.msg[0].devices[0].host, req.msg[0].devices[0].port)] else []
  {
    hide Sound, Next, HasReg, Still, Ok, RegisterDevice, DeviceNode;
    var m, i := RegisterIsEdge(g, req, tagged);
    var d := DeviceNode(req);
    UnfoldSound(g, tagged);
    Parts(g);
    Parts(m);
    RegisterIsOneEdge(m, i, d, Still());
    EdgeAddsRow(m, i, d, Still(), scene);
    SameRegs(g, m, scene);
    NodeIs(req);
    var before := RowsFor(m, m.regs, scene);
    AllDevices(m, m.regs, scene);
    LeadingConcat(before, [C.Device(Some(d.host), Some(d.port))]);
    LeadingOne(d.host, d.port);
    assert before + [] == before && C.LeadingDevices(before) + [] == C.LeadingDevices(before);
    assert m.scenes[i] == req.msg[0].key;
  }

  lemma LeadingOne(host: string, port: int)
    ensures C.LeadingDevices([C.Device(Some(host), Some(port))]) == [(host, port)]
  {
    assert [C.Device(Some(host), Some(port))][1..] == [];
  }

  lemma Parts(g: Graph)
    requires Ok(g)
    ensures EdgesOk(g) && KeysUnique(g)
  {
  }

  lemma SameRegs(g: Graph, m: Graph, scene: Key)
    requires EdgesOk(g) && m.devices == g.devices && m.regs == g.regs && g.scenes <= m.scenes
    ensures RowsFor(m, m.regs, scene) == RowsFor(g, g.regs, scene)
  {
    hide EdgesOk;
    EdgesAreInside(g);
    RowsAgree(g, m, g.regs, scene);
  }

  lemma {:induction false} RowsIgnorePoses(g: Graph, h: Graph, regs: seq<Reg>, other: seq<Reg>, scene: Key)
    requires h.scenes == g.scenes && h.devices == g.devices && |regs| == |other|
    requires forall i :: 0 <= i < |regs| ==> regs[i].scene == other[i].scene && regs[i].dev == other[i].dev
    ensures RowsFor(g, regs, scene) == RowsFor(h, other, scene)
  {
    if regs != [] {
      RowsIgnorePoses(g, h, regs[..|regs| - 1], other[..|regs| - 1], scene);
    }
  }

  /** An alignment changes no address. */
  lemma AlignKeepsAddresses(g: Graph, msg: seq<SceneMsg>, tagged: bool, scene: Key)
    requires Sound(g, tagged) && Complete(msg)
    ensures AddressesOf(Next(g, Align(msg), tagged), scene) == AddressesOf(g, scene)
  {
    hide Sound, Relink, RowsOf, DeviceKeysOf, IsRegOf, C.LeadingDevices;
    var s, d := msg[0].key, msg[0].devices[0];
    var m := UpdateRegistration(g, d.key, s, d.pose);
    RelinkKeepsNodes(m, RowsOf(m, m.regs, d.key), s, d.pose, tagged);
    RelinkKeepsScenes(m, RowsOf(m, m.regs, d.key), s, d.pose, tagged);
    var h := Next(g, Align(msg), tagged);
    RowsIgnorePoses(g, h, g.regs, h.regs, scene);
  }
}
