/**
 Registering a device to a scene, removing it, and aligning it: the message processor and the
 queries with loops. A message is one atomic step on the stored graph. Generated ids come with the
 request; a generator that fails gives an empty one.
 */
module Registration {
  import opened Wrappers
  import opened Poses
  import opened Paths
  import opened SceneGraph
  import opened GraphProofs
  import opened SceneLinks

  const NO_ERROR := 100
  const NOT_FOUND := 102
  const PROCESSING_ERROR := 120
  const INSUFF_DATA_ERROR := 122

  datatype DeviceMsg = DeviceMsg(key: Key, connection: string, host: string, port: int, pose: Pose)

  datatype SceneMsg = SceneMsg(key: Key, devices: seq<DeviceMsg>)

  datatype Request =
    | Register(msg: seq<SceneMsg>, deviceId: Key, sceneId: Key)
    | Deregister(msg: seq<SceneMsg>)
    | Align(msg: seq<SceneMsg>)

  /** A reply with its error code and the keys of the devices in it, or no reply: building one reads
      the first scene of the message, and reading a scene that is not there throws. */
  datatype Answer = Replied(code: int, devices: seq<Key>) | Thrown

  predicate Complete(msg: seq<SceneMsg>) {
    msg != [] && msg[0].devices != []
  }

  function Failure(msg: seq<SceneMsg>, code: int): Answer {
    if msg == [] then Thrown else Replied(code, [])
  }

  // ---------------------------------------------------------------- what a request does

  function DeviceKey(req: Request): Key
    requires Complete(req.msg)
  {
    if req.Register? && req.msg[0].devices[0].key == "" then req.deviceId else req.msg[0].devices[0].key
  }

  /** The key a missing scene would be created under. */
  function SceneKey(req: Request): Key
    requires req.Register? && Complete(req.msg)
  {
    if req.msg[0].key == "" then req.sceneId else req.msg[0].key
  }

  /** The registration fails for want of a generated key. */
  predicate NoKey(g: Graph, req: Request)
    requires req.Register? && Complete(req.msg)
  {
    DeviceKey(req) == "" || (req.msg[0].key !in g.scenes && SceneKey(req) == "")
  }

  function DeviceNode(req: Request): Device
    requires Complete(req.msg)
  {
    var d := req.msg[0].devices[0];
    Device(DeviceKey(req), d.connection, d.host, d.port)
  }

  function Registering(g: Graph, req: Request): Graph
    requires req.Register? && Complete(req.msg)
  {
    var s := req.msg[0].key;
    if NoKey(g, req) then g
    else if s !in g.scenes then RegisterDevice(CreateScene(g, SceneKey(req)), s, DeviceNode(req), Still())
    else if DeviceKey(req) in DeviceKeysOf(g, g.regs, s) then g
    else RegisterDevice(g, s, DeviceNode(req), Still())
  }

  function Aligning(g: Graph, dev: Key, s: Key, pose: Pose, tagged: bool): Graph {
    var g' := UpdateRegistration(g, dev, s, pose);
    if dev in DeviceKeysOf(g, g.regs, s) then Relink(g', RowsOf(g', g'.regs, dev), s, pose, tagged) else g'
  }

  /** The graph after a request. */
  function Next(g: Graph, req: Request, tagged: bool): Graph {
    if !Complete(req.msg) then g
    else
      var d := req.msg[0].devices[0];
      match req
      case Register(_, _, _) => Registering(g, req)
      case Deregister(_) => RemoveDevice(g, d.key, req.msg[0].key)
      case Align(_) => Aligning(g, d.key, req.msg[0].key, d.pose, tagged)
  }

  /** The answer to a request. */
  function Reply(g: Graph, req: Request): Answer {
    if !Complete(req.msg) then Failure(req.msg, INSUFF_DATA_ERROR)
    else
      match req
      case Register(_, _, _) =>
        if NoKey(g, req) then Replied(PROCESSING_ERROR, []) else Replied(NO_ERROR, [DeviceKey(req)])
      case Deregister(_) => Replied(NO_ERROR, [])
      case Align(_) =>
        var found := req.msg[0].devices[0].key in DeviceKeysOf(g, g.regs, req.msg[0].key);
        Replied(if found then NO_ERROR else NOT_FOUND, [])
  }

  // ---------------------------------------------------------------- reading registrations

  /** An object of a query's result. */
  datatype Object = NodeObject(key: Option<Key>) | EdgeObject(props: EdgeProps) | OtherObject

  /** A result of the query for a device's scenes: the scene, the edge and the device. */
  datatype Result = Result(scene: Object, edge: Object, device: Object)

  /** A scene built from a result, with the device in it, if that had a key. */
  datatype Found = Found(scene: Key, device: Option<(Key, Pose)>)

  const FAR := -999.0
  const NO_PROPS := EdgeProps(None, None, None, None, None, None)

  /** A missing property reads as -999; `far` is the turn by that many radians. */
  function WithDefaults(p: EdgeProps, far: Turn): EdgeProps {
    EdgeProps(Some(Or(p.tx, FAR)), Some(Or(p.ty, FAR)), Some(Or(p.tz, FAR)),
              Some(Or(p.rx, far)), Some(Or(p.ry, far)), Some(Or(p.rz, far)))
  }

  function ReadOne(r: Result, far: Turn): Found {
    var p := WithDefaults(if r.edge.EdgeObject? then r.edge.props else NO_PROPS, far);
    Found(if r.scene.NodeObject? then Or(r.scene.key, "") else "",
          if r.device.NodeObject? && r.device.key.Some? then Some((r.device.key.value, PoseOf(p))) else None)
  }

  predicate Readable(r: Result) {
    !r.scene.OtherObject? && !r.edge.OtherObject? && !r.device.OtherObject?
  }

  /** The results before the first with an object that is neither node nor edge. */
  function ReadAll(results: seq<Result>, far: Turn): seq<Found> {
    if results == [] || !Readable(results[0]) then [] else [ReadOne(results[0], far)] + ReadAll(results[1..], far)
  }

  /** What is read: one scene for every result before the first with an object of another kind. */
  lemma {:induction false} ReadAllIs(results: seq<Result>, far: Turn)
    ensures var found := ReadAll(results, far);
      && |found| <= |results|
      && (forall i :: 0 <= i < |found| ==> found[i] == ReadOne(results[i], far))
      && (forall i :: 0 <= i < |found| ==>
           !results[i].scene.OtherObject? && !results[i].edge.OtherObject? && !results[i].device.OtherObject?)
      && (|found| < |results| ==>
           var r := results[|found|]; r.scene.OtherObject? || r.edge.OtherObject? || r.device.OtherObject?)
  {
    hide ReadOne;
    if results != [] && Readable(results[0]) {
      ReadAllIs(results[1..], far);
      var rest := ReadAll(results[1..], far);
      assert forall i :: 0 < i <= |rest| ==>
        ReadAll(results, far)[i] == rest[i - 1] && results[i] == results[1..][i - 1];
    }
  }

  /** A missing scene key reads as the empty one, a device without a key is left out, and a missing
      property of the edge, or an edge that is none, reads as -999. */
  lemma ReadOneIs(r: Result, far: Turn)
    ensures var f := ReadOne(r, far); var p := if r.edge.EdgeObject? then r.edge.props else NO_PROPS;
      && f.scene == (if r.scene.NodeObject? && r.scene.key.Some? then r.scene.key.value else "")
      && (f.device.Some? <==> r.device.NodeObject? && r.device.key.Some?)
      && (f.device.Some? ==>
           && f.device.value.0 == r.device.key.value
           && Filled(p, WithDefaults(p, far), far) && f.device.value.1 == PoseOf(WithDefaults(p, far)))
  {
    hide PoseOf;
  }

  /** The properties that are there, and -999, or the turn by that many radians, for those missing. */
  predicate Filled(p: EdgeProps, q: EdgeProps, far: Turn) {
    hide OnCircle;
    && q.tx == Some(if p.tx.Some? then p.tx.value else -999.0)
    && q.ty == Some(if p.ty.Some? then p.ty.value else -999.0)
    && q.tz == Some(if p.tz.Some? then p.tz.value else -999.0)
    && q.rx == (if p.rx.Some? then p.rx else Some(far))
    && q.ry == (if p.ry.Some? then p.ry else Some(far))
    && q.rz == (if p.rz.Some? then p.rz else Some(far))
  }

  /** The results show these rows of the graph, every edge with all its properties, as they are stored. */
  ghost predicate Shows(results: seq<Result>, rows: seq<Row>, dev: Key) {
    && |results| == |rows|
    && forall i :: 0 <= i < |rows| ==> ShowsRow(results[i], rows[i], dev)
  }

  predicate ShowsRow(r: Result, row: Row, dev: Key) {
    && r.scene == NodeObject(Some(row.scene)) && r.device == NodeObject(Some(dev)) && r.edge.EdgeObject?
    && var p := r.edge.props;
       p.tx.Some? && p.ty.Some? && p.tz.Some? && p.rx.Some? && p.ry.Some? && p.rz.Some? && PoseOf(p) == row.pose
  }

  function FoundOf(rows: seq<Row>, dev: Key): seq<Found> {
    seq(|rows|, i requires 0 <= i < |rows| => Found(rows[i].scene, Some((dev, rows[i].pose))))
  }

  /** Reading what a query shows of the graph gives the graph's rows: no default is used. */
  lemma {:induction false} ReadShown(results: seq<Result>, rows: seq<Row>, dev: Key, far: Turn)
    requires Shows(results, rows, dev)
    ensures ReadAll(results, far) == FoundOf(rows, dev)
  {
    hide PoseOf;
    if results != [] {
      assert ShowsRow(results[0], rows[0], dev);
      ReadShown(results[1..], rows[1..], dev, far);
    }
  }

  /** The scenes of the list with the transform of their first device. */
  function FirstDevices(found: seq<Found>): seq<Row>
    requires forall f <- found :: f.device.Some?
  {
    seq(|found|, i requires 0 <= i < |found| => Row(found[i].scene, found[i].device.value.1))
  }

  // ---------------------------------------------------------------- the processor

  lemma {:induction false} RowsHaveScenes(g: Graph, regs: seq<Reg>, dev: Key)
    ensures forall row <- RowsOf(g, regs, dev) :: row.scene in g.scenes
  {
    if regs != [] {
      RowsHaveScenes(g, regs[..|regs| - 1], dev);
    }
  }

  lemma {:induction false} RelinkKeepsScenes(g: Graph, rows: seq<Row>, s: Key, inS: Pose, tagged: bool)
    ensures Relink(g, rows, s, inS, tagged).scenes == g.scenes
  {
    if rows != [] {
      RelinkKeepsScenes(g, rows[..|rows| - 1], s, inS, tagged);
    }
  }

  class MessageProcessor {
    var db: Graph
    const tagged: bool

    constructor (g: Graph, linksAreTagged: bool)
      ensures db == g && tagged == linksAreTagged
    {
      db := g;
      tagged := linksAreTagged;
    }

    method IsUdRegistered(scene: Key, dev: Key) returns (found: bool)
      ensures found <==> dev in DeviceKeysOf(db, db.regs, scene)
      ensures found <==> exists r <- db.regs :: IsRegOf(db, r, scene, dev)
    {
      found := false;
      var results := DeviceKeysOf(db, db.regs, scene);
      for i := 0 to |results|
        invariant found <==> dev in results[..i]
      {
        if results[i] == dev {
          found := true;
        }
      }
      assert results[..|results|] == results;
      DeviceKeysExactly(db, db.regs, scene, dev);
    }

    /** The scene of one result, and its device with the transform on the edge. */
    method ReadResult(r: Result, far: Turn) returns (data: Found)
      ensures data == ReadOne(r, far)
    {
      hide PoseOf, WithDefaults;
      var p := NO_PROPS;
      if r.edge.EdgeObject? {
        p := r.edge.props;
      }
      p := WithDefaults(p, far);
      data := Found(if r.scene.NodeObject? then Or(r.scene.key, "") else "", None);
      if r.device.NodeObject? {
        if r.device.key.Some? {
          data := data.(device := Some((r.device.key.value, PoseOf(p))));
        }
      }
    }

    /** No list at all when there is no registration. */
    method GetRegistrations(results: seq<Result>, far: Turn) returns (list: Option<seq<Found>>)
      ensures list == var found := ReadAll(results, far); if found == [] then None else Some(found)
    {
      hide ReadOne;
      var found, count, i := [], 0, 0;
      while i < |results|
        invariant 0 <= i <= |results| && count == |found|
        invariant ReadAll(results, far) == found + ReadAll(results[i..], far)
      {
        if results[i].scene.OtherObject? {
          break;
        }
        if results[i].edge.OtherObject? {
          break;
        }
        if results[i].device.OtherObject? {
          break;
        }
        count := count + 1;
        var data := ReadResult(results[i], far);
        assert results[i..][1..] == results[i + 1..];
        ghost var rest := ReadAll(results[i + 1..], far);
        assert found + ([data] + rest) == (found + [data]) + rest;
        found := found + [data];
        i := i + 1;
      }
      assert ReadAll(results[i..], far) == [];
      assert found + [] == found;
      list := if count == 0 then None else Some(found);
    }

    /** One round of the loop below. A link that matches no two scenes would fail; between scenes
        of the graph none does. */
    method CorrectLink(r: Key, s: Key, p: Pose) returns (failed: bool)
      requires r in db.scenes && s in db.scenes
      modifies this`db
      ensures !failed && db == RelinkOne(old(db), r, s, p, tagged)
    {
      MatchesExactly(db.scenes, r);
      MatchesExactly(db.scenes, s);
      failed := false;
      var found := GetSceneLink(db, r, s);
      if found == 0 {
        failed := Matches(db.scenes, r) == [] || Matches(db.scenes, s) == [];
        db := CreateSceneLink(db, r, s, p, tagged);
      } else if found == 1 {
        db := UpdateSceneLink(db, r, s, p);
      } else if found == 2 {
        db := UpdateSceneLink(db, s, r, Invert(p));
      }
    }

    method ProcessUdud(found: seq<Found>, s: Key, inS: Pose) returns (failed: bool)
      requires forall f <- found :: f.device.Some? && f.scene in db.scenes
      requires s in db.scenes
      modifies this`db
      ensures !failed && db == Relink(old(db), FirstDevices(found), s, inS, tagged)
    {
      hide RelinkOne, Compose, Invert, Still;
      failed := false;
      ghost var rows := FirstDevices(found);
      for i := 0 to |found|
        invariant !failed && db == Relink(old(db), rows[..i], s, inS, tagged)
        invariant db.scenes == old(db.scenes)
      {
        assert rows[..i + 1][..i] == rows[..i];
        if found[i].scene != s {
          var p := Compose(found[i].device.value.1, Still());
          StillIsNeutral(found[i].device.value.1);
          p := Invert(p);
          p := Compose(inS, p);
          failed := CorrectLink(found[i].scene, s, p);
          RelinkKeepsScenes(old(db), rows[..i + 1], s, inS, tagged);
        }
      }
      assert rows[..|rows|] == rows;
    }

    /** Only the first scene of the message is created. */
    method CreateScenes(msg: seq<SceneMsg>, sceneId: Key) returns (ok: bool)
      requires msg != []
      modifies this`db
      ensures var key := if msg[0].key == "" then sceneId else msg[0].key;
        ok == (key != "") && db == if ok then CreateScene(old(db), key) else old(db)
    {
      var newId := msg[0].key;
      if newId == "" {
        newId := sceneId;
      }
      ok := newId != "";
      if ok {
        db := CreateScene(db, newId);
      }
    }

    method ProcessRegistration(msg: seq<SceneMsg>, deviceId: Key, sceneId: Key) returns (answer: Answer)
      modifies this`db
      ensures var req := Register(msg, deviceId, sceneId);
        db == Next(old(db), req, tagged) && answer == Reply(old(db), req)
    {
      var code := NO_ERROR;
      var alreadyRegistered, newId := false, "";
      if |msg| < 1 {
        code := INSUFF_DATA_ERROR;
      } else if |msg[0].devices| < 1 {
        code := INSUFF_DATA_ERROR;
      }
      if code == NO_ERROR {
        var known := SceneExists(db, msg[0].key);
        SceneExistsIs(db, msg[0].key);
        newId := msg[0].devices[0].key;
        if newId == "" {
          newId := deviceId;
          if newId == "" {
            code := PROCESSING_ERROR;
          }
        }
        if code == NO_ERROR {
          if !known {
            var ok := CreateScenes(msg, sceneId);
            if !ok {
              code := PROCESSING_ERROR;
            }
          } else {
            alreadyRegistered := IsUdRegistered(msg[0].key, newId);
          }
        }
      }
      if !alreadyRegistered && code == NO_ERROR {
        var d := msg[0].devices[0];
        db := RegisterDevice(db, msg[0].key, Device(newId, d.connection, d.host, d.port), Still());
      }
      if msg == [] {
        answer := Thrown;
      } else {
        answer := Replied(code, if code == NO_ERROR then [newId] else []);
      }
    }

    method ProcessDeregistration(msg: seq<SceneMsg>) returns (answer: Answer)
      modifies this`db
      ensures var req := Deregister(msg);
        db == Next(old(db), req, tagged) && answer == Reply(old(db), req)
    {
      var code := NO_ERROR;
      if |msg| < 1 {
        code := INSUFF_DATA_ERROR;
      } else if |msg[0].devices| < 1 {
        code := INSUFF_DATA_ERROR;
      }
      if code == NO_ERROR {
        db := RemoveDevice(db, msg[0].devices[0].key, msg[0].key);
      }
      answer := if msg == [] then Thrown else Replied(code, []);
    }

    /** The query that updates a registration returns a row for each one it finds. */
    method UpdateDeviceRegistration(dev: Key, scene: Key, pose: Pose) returns (found: bool)
      modifies this`db
      ensures db == UpdateRegistration(old(db), dev, scene, pose)
      ensures found <==> dev in DeviceKeysOf(old(db), old(db).regs, scene)
    {
      found := dev in DeviceKeysOf(db, db.regs, scene);
      db := UpdateRegistration(db, dev, scene, pose);
    }

    /** `results` is what the query for the device's scenes returns after the update. */
    method ProcessAlignment(msg: seq<SceneMsg>, results: seq<Result>, far: Turn) returns (answer: Answer)
      requires Complete(msg) ==>
        var d := msg[0].devices[0];
        var h := UpdateRegistration(db, d.key, msg[0].key, d.pose);
        Shows(results, RowsOf(h, h.regs, d.key), d.key)
      modifies this`db
      ensures var req := Align(msg);
        db == Next(old(db), req, tagged) && answer == Reply(old(db), req)
    {
      hide UpdateRegistration, RowsOf, PoseOf, DeviceKeysOf;
      var code, found := NO_ERROR, false;
      if |msg| < 1 {
        code := INSUFF_DATA_ERROR;
      } else if |msg[0].devices| < 1 {
        code := INSUFF_DATA_ERROR;
      }
      if code == NO_ERROR {
        var d := msg[0].devices[0];
        found := UpdateDeviceRegistration(d.key, msg[0].key, d.pose);
        if !found {
          code := NOT_FOUND;
        }
        if code == NO_ERROR {
          ghost var rows := RowsOf(db, db.regs, d.key);
          var registered := GetRegistrations(results, far);
          UpdatedRows(old(db), d.key, msg[0].key, d.pose);
          RowsHaveScenes(db, db.regs, d.key);
          ReadShown(results, rows, d.key, far);
          assert FirstDevices(FoundOf(rows, d.key)) == rows;
          var failed := ProcessUdud(registered.value, msg[0].key, d.pose);
          if failed {
            code := PROCESSING_ERROR;
          }
        }
      }
      answer := if msg == [] then Thrown else Replied(code, []);
    }
  }

  /** After an update that found a registration there are rows, and the scene exists. */
  lemma UpdatedRows(g: Graph, dev: Key, s: Key, pose: Pose)
    requires dev in DeviceKeysOf(g, g.regs, s)
    ensures var h := UpdateRegistration(g, dev, s, pose);
      RowsOf(h, h.regs, dev) != [] && s in h.scenes
  {
    var h := UpdateRegistration(g, dev, s, pose);
    DeviceKeysExactly(g, g.regs, s, dev);
    UpdateSetsOne(g, dev, s, pose);
    assert HasReg(g, s, dev) && Registered(h, s, dev, pose);
    RowsExactly(h, h.regs, dev, s, pose);
    assert Row(s, pose) in RowsOf(h, h.regs, dev);
  }
}
