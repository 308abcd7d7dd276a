/** The scene list message: its fields, the JSON tree it is printed as and the one it is parsed from. */
module SceneLists {
  import opened Wrappers
  import opened Json

  type Int32 = x: int | -0x8000_0000 <= x < 0x8000_0000

  const APPEND: Int32 := 10
  const UNSET := -9999.0
  const NO_PORT: Int32 := 999999

  datatype Triple = Triple(x: real, y: real, z: real)

  /** A part that was never set is not printed. The rotation is the angles the library extracts,
      which rebuild the matrix. */
  datatype Placement = Placement(translation: Option<Triple>, rotation: Option<Triple>)

  datatype Device = Device(key: string, connection: string, host: string, port: Int32, transform: Option<Placement>)

  datatype Scene = Scene(
    key: string, name: string, description: string, user: string, thumbnail: string, region: string,
    latitude: real, longitude: real, distance: real, active: bool, isPublic: bool,
    assets: seq<string>, tags: seq<string>, transform: Option<Placement>, devices: seq<Device>)

  datatype SceneList = SceneList(
    msgType: Int32, operation: Int32, errCode: Int32, errMsg: string, transactionId: string,
    encPassword: string, encSalt: string, encKey: string, encIv: string,
    decPassword: string, decSalt: string, decKey: string, decIv: string,
    host: string, port: Int32, numRecords: Int32, startRecord: Int32, scenes: seq<Scene>)

  const NEW_SCENE := Scene("", "", "", "", "", "", UNSET, UNSET, 0.0, true, true, [], [], None, [])

  /** A list as constructed; its event destination port is not initialised. */
  function NewList(port: Int32): SceneList {
    SceneList(-1, APPEND, 100, "", "", "", "", "", "", "", "", "", "", "", port, 10, 0, [])
  }

  // ---------------------------------------------------------------- printing

  /** writer.Uint of an int: the value modulo 2^32. */
  function Uint(v: Int32): Tree {
    Num(if v < 0 then v + 0x1_0000_0000 else v)
  }

  function Text(s: string): Option<Tree> {
    if s == "" then None else Some(Str(s))
  }

  function Above(r: real): Option<Tree> {
    if r > UNSET then Some(Real(r)) else None
  }

  function Texts(s: seq<string>): seq<Tree> {
    seq(|s|, i requires 0 <= i < |s| => Str(s[i]))
  }

  function TripleTree(t: Triple): Tree {
    Arr([Real(t.x), Real(t.y), Real(t.z)])
  }

  function PartTree(t: Option<Triple>): Option<Tree> {
    if t.None? then None else Some(TripleTree(t.value))
  }

  function PlacementFields(p: Placement): seq<Field> {
    [Field("translation", PartTree(p.translation)), Field("rotation", PartTree(p.rotation))]
  }

  function PlacementTree(p: Placement): Tree {
    Obj(Keep(PlacementFields(p)))
  }

  function TransformTree(p: Option<Placement>): Option<Tree> {
    if p.None? then None else Some(PlacementTree(p.value))
  }

  function DeviceFields(d: Device): seq<Field> {
    [Field("key", Text(d.key)),
     Field("connection_string", Text(d.connection)),
     Field("hostname", Text(d.host)),
     Field("port", if d.port < NO_PORT then Some(Uint(d.port)) else None),
     Field("transform", TransformTree(d.transform))]
  }

  function DeviceTree(d: Device): Tree {
    Obj(Keep(DeviceFields(d)))
  }

  function DeviceTrees(ds: seq<Device>): seq<Tree> {
    if ds == [] then [] else DeviceTrees(ds[..|ds| - 1]) + [DeviceTree(ds[|ds| - 1])]
  }

  function SceneFields(s: Scene): seq<Field> {
    [Field("key", Text(s.key)),
     Field("name", Text(s.name)),
     Field("description", Text(s.description)),
     Field("user", Text(s.user)),
     Field("thumbnail", Text(s.thumbnail)),
     Field("region", Text(s.region)),
     Field("latitude", Above(s.latitude)),
     Field("active", Some(Bool(s.active))),
     Field("public", Some(Bool(s.isPublic))),
     Field("longitude", Above(s.longitude)),
     Field("distance", Above(s.distance)),
     Field("assets", Some(Arr(Texts(s.assets)))),
     Field("tags", Some(Arr(Texts(s.tags)))),
     Field("transform", TransformTree(s.transform)),
     Field("devices", Some(Arr(DeviceTrees(s.devices))))]
  }

  function SceneTree(s: Scene): Tree {
    Obj(Keep(SceneFields(s)))
  }

  function SceneTrees(ss: seq<Scene>): seq<Tree> {
    if ss == [] then [] else SceneTrees(ss[..|ss| - 1]) + [SceneTree(ss[|ss| - 1])]
  }

  /** A vector whose size an int can count. */
  predicate Countable(l: SceneList) {
    |l.scenes| < 0x8000_0000
  }

  /** How many scenes the message is to hold; below -1 the request makes it negative. */
  function Returned(l: SceneList): Int32
    requires Countable(l)
  {
    if l.numRecords != -1 && l.numRecords < |l.scenes| then l.numRecords else |l.scenes|
  }

  function ReturnedScenes(l: SceneList): seq<Scene>
    requires Countable(l)
  {
    if Returned(l) < 0 then [] else l.scenes[..Returned(l)]
  }

  function ListFields(l: SceneList): seq<Field>
    requires Countable(l)
  {
    [Field("msg_type", Some(Uint(l.msgType))),
     Field("err_code", Some(Uint(l.errCode))),
     Field("err_msg", Text(l.errMsg)),
     Field("transaction_id", Text(l.transactionId)),
     Field("encryption_password", Text(l.encPassword)),
     Field("encryption_salt", Text(l.encSalt)),
     Field("encryption_key", Text(l.encKey)),
     Field("encryption_iv", Text(l.encIv)),
     Field("decryption_password", Text(l.decPassword)),
     Field("decryption_salt", Text(l.decSalt)),
     Field("decryption_key", Text(l.decKey)),
     Field("decryption_iv", Text(l.decIv)),
     Field("event_destination_host", Text(l.host)),
     Field("event_destination_port", if l.port > 0 then Some(Num(l.port)) else None),
     Field("num_records", Some(Uint(Returned(l)))),
     Field("start_record", Some(Uint(l.startRecord))),
     Field("scenes", Some(Arr(SceneTrees(ReturnedScenes(l)))))]
  }

  function TreeOf(l: SceneList): Tree
    requires Countable(l)
  {
    Obj(Keep(ListFields(l)))
  }

  // ---------------------------------------------------------------- parsing

  function TextOr(m: seq<Member>, name: string, default: string): string {
    var v := Find(m, name);
    if v.Some? && v.value.Str? then v.value.s else default
  }

  function BoolOr(m: seq<Member>, name: string, default: bool): bool {
    var v := Find(m, name);
    if v.Some? && v.value.Bool? then v.value.b else default
  }

  predicate IsInt(t: Tree) {
    t.Num? && -0x8000_0000 <= t.n < 0x8000_0000
  }

  function IntOr(m: seq<Member>, name: string, default: Int32): Int32 {
    var v := Find(m, name);
    if v.Some? && IsInt(v.value) then v.value.n else default
  }

  /** A double, or an int read as one; nothing else. */
  function Amount(t: Tree): Option<real> {
    if t.Real? then Some(t.r) else if IsInt(t) then Some(t.n as real) else None
  }

  function AmountOr(m: seq<Member>, name: string, default: real): real {
    var v := Find(m, name);
    if v.Some? && Amount(v.value).Some? then Amount(v.value).value else default
  }

  function ItemsOf(v: Option<Tree>): seq<Tree> {
    if v.Some? && v.value.Arr? then v.value.items else []
  }

  function StringsOf(items: seq<Tree>): seq<string> {
    if items == [] then []
    else
      var n := |items| - 1;
      StringsOf(items[..n]) + if items[n].Str? then [items[n].s] else []
  }

  function Put(t: Option<Triple>, i: nat, amount: real): Option<Triple> {
    var was := if t.Some? then t.value else Triple(0.0, 0.0, 0.0);
    if i == 0 then Some(was.(x := amount))
    else if i == 1 then Some(was.(y := amount))
    else if i == 2 then Some(was.(z := amount))
    else t
  }

  /** translate or rotate with each item that is a number, at the item's position. */
  function PutAll(t: Option<Triple>, items: seq<Tree>): Option<Triple> {
    if items == [] then t
    else
      var n := |items| - 1;
      var before := PutAll(t, items[..n]);
      if Amount(items[n]).Some? then Put(before, n, Amount(items[n]).value) else before
  }

  /** The members of a transform, in their order. */
  function PlacementFrom(m: seq<Member>): Placement {
    if m == [] then Placement(None, None)
    else
      var n := |m| - 1;
      var p := PlacementFrom(m[..n]);
      if m[n].name == "translation" then p.(translation := PutAll(p.translation, ItemsOf(Some(m[n].value))))
      else if m[n].name == "rotation" then p.(rotation := PutAll(p.rotation, ItemsOf(Some(m[n].value))))
      else p
  }

  function TransformFrom(v: Option<Tree>): Option<Placement> {
    if v.None? then None else Some(PlacementFrom(MembersOf(v.value)))
  }

  /** A device without a key of its own is dropped. */
  function DeviceFrom(t: Tree): Option<Device> {
    var m := MembersOf(t);
    var key := Find(m, "key");
    if key.None? || !key.value.Str? then None
    else
      Some(Device(key.value.s, TextOr(m, "connection_string", ""), TextOr(m, "hostname", ""),
                  IntOr(m, "port", NO_PORT), TransformFrom(Find(m, "transform"))))
  }

  function DevicesFrom(items: seq<Tree>): seq<Device> {
    if items == [] then []
    else
      var n := |items| - 1;
      var d := DeviceFrom(items[n]);
      DevicesFrom(items[..n]) + if d.None? then [] else [d.value]
  }

  /** "private" is read after "public" and has the last word. */
  function PublicFrom(m: seq<Member>): bool {
    var p := Find(m, "private");
    if p.Some? && p.value.Bool? then !p.value.b else BoolOr(m, "public", true)
  }

  function SceneFrom(t: Tree): Scene {
    var m := MembersOf(t);
    Scene(TextOr(m, "key", ""), TextOr(m, "name", ""), TextOr(m, "description", ""), "",
          TextOr(m, "thumbnail", ""), TextOr(m, "region", ""),
          AmountOr(m, "latitude", UNSET), AmountOr(m, "longitude", UNSET), AmountOr(m, "distance", 0.0),
          BoolOr(m, "active", true), PublicFrom(m),
          StringsOf(ItemsOf(Find(m, "assets"))), StringsOf(ItemsOf(Find(m, "tags"))),
          TransformFrom(Find(m, "transform")), DevicesFrom(ItemsOf(Find(m, "devices"))))
  }

  function ScenesFrom(items: seq<Tree>): seq<Scene> {
    if items == [] then [] else ScenesFrom(items[..|items| - 1]) + [SceneFrom(items[|items| - 1])]
  }

  /** The password is read into the key and the iv into the salt, before and after the members of
      those names. The port is read only from a string, which no int can be got from. */
  function ListFrom(t: Tree, port: Int32): SceneList {
    var m := MembersOf(t);
    SceneList(
      IntOr(m, "msg_type", -1), IntOr(m, "operation", APPEND), IntOr(m, "err_code", 100),
      TextOr(m, "err_msg", ""), TextOr(m, "transaction_id", ""),
      "", TextOr(m, "encryption_iv", TextOr(m, "encryption_salt", "")),
      TextOr(m, "encryption_key", TextOr(m, "encryption_password", "")), "",
      TextOr(m, "decryption_password", ""), TextOr(m, "decryption_salt", ""),
      TextOr(m, "decryption_key", ""), TextOr(m, "decryption_iv", ""),
      TextOr(m, "event_destination_host", ""), port,
      IntOr(m, "num_records", 10), IntOr(m, "start_record", 0), ScenesFrom(ItemsOf(Find(m, "scenes"))))
  }
}
