/**
 The stored graph: scene nodes, device nodes, the TRANSFORM edges from scenes to devices
 (registrations) and those between scenes (links), and what each query of the program does to it.
 A pattern that matches several nodes acts on each of them, in the order in which they were stored.
 */
module SceneGraph {
  import opened Wrappers
  import opened Poses

  type Key = string

  datatype Device = Device(key: Key, connection: string, host: string, port: int)

  /** A registration edge, from the scene at this index to the device node with this id. */
  datatype Reg = Reg(scene: nat, dev: nat, pose: Pose)

  /** A link edge between two scenes; `tag` is its "key" property. */
  datatype Link = Link(src: nat, dst: nat, pose: Pose, tag: Option<Key>)

  datatype Graph = Graph(
    scenes: seq<Key>, devices: map<nat, Device>, regs: seq<Reg>, links: seq<Link>, next: nat)

  const EMPTY := Graph([], map[], [], [], 0)

  // ---------------------------------------------------------------- well-formed graphs

  /** Every edge ends in nodes of the graph, and a scene has no link to itself. */
  ghost predicate EdgesOk(g: Graph) {
    && (forall r <- g.regs :: r.scene < |g.scenes| && r.dev in g.devices)
    && (forall d <- g.devices :: d < g.next)
    && (forall l <- g.links :: l.src < |g.scenes| && l.dst < |g.scenes| && l.src != l.dst)
  }

  ghost predicate KeysUnique(g: Graph) {
    forall i, j :: 0 <= i < j < |g.scenes| ==> g.scenes[i] != g.scenes[j]
  }

  /** Exactly one edge leads to each device node. */
  ghost predicate OneEdgePerDevice(g: Graph) {
    && (forall i, j :: 0 <= i < j < |g.regs| ==> g.regs[i].dev != g.regs[j].dev)
    && (forall d <- g.devices :: exists i :: 0 <= i < |g.regs| && g.regs[i].dev == d)
  }

  /** A scene has at most one registration under a device key. */
  ghost predicate OneRegPerKey(g: Graph)
    requires EdgesOk(g)
  {
    forall i, j :: 0 <= i < j < |g.regs| && g.regs[i].scene == g.regs[j].scene ==>
      g.devices[g.regs[i].dev].key != g.devices[g.regs[j].dev].key
  }

  /** The invariant of the registration state machine. */
  ghost predicate Ok(g: Graph) {
    EdgesOk(g) && KeysUnique(g) && OneEdgePerDevice(g) && OneRegPerKey(g)
  }

  /** The device is registered to the scene with this transform. */
  ghost predicate Registered(g: Graph, scene: Key, dev: Key, pose: Pose) {
    exists r <- g.regs :: IsRegOf(g, r, scene, dev) && r.pose == pose
  }

  // ---------------------------------------------------------------- the queries

  /** MATCH (scn:Scene {key}): the indices of the scenes with this key. */
  function Matches(scenes: seq<Key>, key: Key): seq<nat> {
    if scenes == [] then []
    else
      var n := |scenes| - 1;
      Matches(scenes[..n], key) + if scenes[n] == key then [n] else []
  }

  predicate SceneExists(g: Graph, key: Key) {
    Matches(g.scenes, key) != []
  }

  /** CREATE (scn:Scene {key, ...}). */
  function CreateScene(g: Graph, key: Key): Graph {
    g.(scenes := g.scenes + [key])
  }

  /** MATCH (scn:Scene {key}) CREATE (scn)-[:TRANSFORM {...}]->(ud:UserDevice {...}): a new device
      node and an edge to it for every matched scene. */
  function RegisterAt(g: Graph, at: seq<nat>, d: Device, pose: Pose): Graph
    decreases |at|
  {
    if at == [] then g
    else
      RegisterAt(g.(devices := g.devices[g.next := d], regs := g.regs + [Reg(at[0], g.next, pose)],
                    next := g.next + 1), at[1..], d, pose)
  }

  function RegisterDevice(g: Graph, scene: Key, d: Device, pose: Pose): Graph {
    RegisterAt(g, Matches(g.scenes, scene), d, pose)
  }

  /** The edge matches (scn:Scene {key: scene})-[:TRANSFORM]->(ud:UserDevice {key: dev}). */
  predicate IsRegOf(g: Graph, r: Reg, scene: Key, dev: Key) {
    r.scene < |g.scenes| && g.scenes[r.scene] == scene && r.dev in g.devices && g.devices[r.dev].key == dev
  }

  /** DETACH DELETE ud for every match: the device nodes go, with all their edges. */
  function RemoveDevice(g: Graph, dev: Key, scene: Key): Graph {
    var doomed := set r <- g.regs | IsRegOf(g, r, scene, dev) :: r.dev;
    g.(devices := g.devices - doomed, regs := Without(g.regs, doomed))
  }

  function Without(regs: seq<Reg>, doomed: set<nat>): seq<Reg> {
    if regs == [] then []
    else
      var n := |regs| - 1;
      Without(regs[..n], doomed) + if regs[n].dev in doomed then [] else [regs[n]]
  }

  /** SET trans.translation_x = ..., for every match. */
  function UpdateRegistration(g: Graph, dev: Key, scene: Key, pose: Pose): Graph {
    g.(regs := seq(|g.regs|, i requires 0 <= i < |g.regs| =>
      if IsRegOf(g, g.regs[i], scene, dev) then g.regs[i].(pose := pose) else g.regs[i]))
  }

  /** One row of the query for the scenes a device is registered to. */
  datatype Row = Row(scene: Key, pose: Pose)

  function RowsOf(g: Graph, regs: seq<Reg>, dev: Key): seq<Row> {
    if regs == [] then []
    else
      var n := |regs| - 1;
      var r := regs[n];
      RowsOf(g, regs[..n], dev) +
        if r.scene < |g.scenes| && r.dev in g.devices && g.devices[r.dev].key == dev
        then [Row(g.scenes[r.scene], r.pose)] else []
  }

  /** The keys of the devices registered to a scene. */
  function DeviceKeysOf(g: Graph, regs: seq<Reg>, scene: Key): seq<Key> {
    if regs == [] then []
    else
      var n := |regs| - 1;
      var r := regs[n];
      DeviceKeysOf(g, regs[..n], scene) +
        if r.scene < |g.scenes| && g.scenes[r.scene] == scene && r.dev in g.devices
        then [g.devices[r.dev].key] else []
  }

  predicate Joins(g: Graph, l: Link, s1: Key, s2: Key) {
    l.src < |g.scenes| && l.dst < |g.scenes| && g.scenes[l.src] == s1 && g.scenes[l.dst] == s2
  }

  /** The links between two scenes, in either direction. */
  function LinksBetween(g: Graph, links: seq<Link>, s1: Key, s2: Key): seq<Link> {
    if links == [] then []
    else
      var n := |links| - 1;
      LinksBetween(g, links[..n], s1, s2) +
        if Joins(g, links[n], s1, s2) || Joins(g, links[n], s2, s1) then [links[n]] else []
  }

  /** get_scene_link: the first link found is taken to be a forward one when its "key" property is
      the first scene's key, a backward one when it is the second's; 0 is no link. */
  function GetSceneLink(g: Graph, s1: Key, s2: Key): int {
    var found := LinksBetween(g, g.links, s1, s2);
    if found == [] || found[0].tag.None? then 0
    else if found[0].tag.value == s1 then 1
    else if found[0].tag.value == s2 then 2
    else 0
  }

  /** CREATE a link for every pair of matched scenes. */
  function CreateLinks(at1: seq<nat>, at2: seq<nat>, pose: Pose, tag: Option<Key>): seq<Link> {
    if at1 == [] then []
    else seq(|at2|, i requires 0 <= i < |at2| => Link(at1[0], at2[i], pose, tag)) +
         CreateLinks(at1[1..], at2, pose, tag)
  }

  /** `tagged` says whether created links carry their source's key; create_scene_link as coded does
      not write it. */
  function CreateSceneLink(g: Graph, s1: Key, s2: Key, pose: Pose, tagged: bool): Graph {
    g.(links := g.links +
       CreateLinks(Matches(g.scenes, s1), Matches(g.scenes, s2), pose, if tagged then Some(s1) else None))
  }

  function UpdateSceneLink(g: Graph, s1: Key, s2: Key, pose: Pose): Graph {
    g.(links := seq(|g.links|, i requires 0 <= i < |g.links| =>
      if Joins(g, g.links[i], s1, s2) then g.links[i].(pose := pose) else g.links[i]))
  }
}
