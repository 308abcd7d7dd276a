/** Printer and parser: what comes back of a scene list, and when all of it does. */
module SceneListProofs {
  import opened Wrappers
  import opened Json
  import opened SceneLists

  // ---------------------------------------------------------------- what comes back

  function IntBack(v: Int32, default: Int32): Int32 {
    if v < 0 then default else v
  }

  function AboveBack(r: real, default: real): real {
    if r > UNSET then r else default
  }

  function DeviceBack(d: Device): Device {
    d.(port := if 0 <= d.port < NO_PORT then d.port else NO_PORT)
  }

  function DevicesBack(ds: seq<Device>): seq<Device> {
    if ds == [] then []
    else
      var n := |ds| - 1;
      DevicesBack(ds[..n]) + if ds[n].key == "" then [] else [DeviceBack(ds[n])]
  }

  function SceneBack(s: Scene): Scene {
    s.(user := "",
       latitude := AboveBack(s.latitude, UNSET), longitude := AboveBack(s.longitude, UNSET),
       distance := AboveBack(s.distance, 0.0), devices := DevicesBack(s.devices))
  }

  function ScenesBack(ss: seq<Scene>): seq<Scene> {
    if ss == [] then [] else ScenesBack(ss[..|ss| - 1]) + [SceneBack(ss[|ss| - 1])]
  }

  function ListBack(l: SceneList, port: Int32): SceneList
    requires Countable(l)
  {
    l.(msgType := IntBack(l.msgType, -1), operation := APPEND, errCode := IntBack(l.errCode, 100),
       encPassword := "", encSalt := if l.encIv != "" then l.encIv else l.encSalt,
       encKey := if l.encKey != "" then l.encKey else l.encPassword, encIv := "",
       port := port, numRecords := IntBack(Returned(l), 10), startRecord := IntBack(l.startRecord, 0),
       scenes := ScenesBack(ReturnedScenes(l)))
  }

  // ---------------------------------------------------------------- member by member

  lemma {:induction false} StringsRoundTrip(s: seq<string>)
    ensures StringsOf(Texts(s)) == s
  {
    if s != [] {
      var n := |s| - 1;
      assert Texts(s)[..n] == Texts(s[..n]);
      StringsRoundTrip(s[..n]);
    }
  }

  lemma TripleRoundTrip(t: Triple)
    ensures PutAll(None, TripleTree(t).items) == Some(t)
  {
    var items := TripleTree(t).items;
    assert items[..2] == [Real(t.x), Real(t.y)] && items[..2][..1] == [Real(t.x)] && items[..2][..1][..0] == [];
    assert PutAll(None, items[..2][..1]) == Some(Triple(t.x, 0.0, 0.0));
    assert PutAll(None, items[..2]) == Some(Triple(t.x, t.y, 0.0));
  }

  /** A transform comes back whole, with exactly the parts that were set. */
  lemma PlacementRoundTrip(p: Placement)
    ensures PlacementFrom(Keep(PlacementFields(p))) == p
  {
    var fs := PlacementFields(p);
    var first := Keep(fs[..1]);
    assert fs[..1][..0] == [] && fs[..2] == fs && Keep(fs[..1][..0]) == [];
    assert first == if p.translation.None? then [] else [Member("translation", TripleTree(p.translation.value))];
    if p.translation.Some? {
      TripleRoundTrip(p.translation.value);
      assert first[..0] == [];
    }
    assert PlacementFrom(first) == Placement(p.translation, None);
    if p.rotation.Some? {
      TripleRoundTrip(p.rotation.value);
      var all := Keep(fs);
      assert all[..|all| - 1] == first;
    }
  }

  lemma TransformRoundTrip(p: Option<Placement>)
    ensures TransformFrom(TransformTree(p)) == p
  {
    if p.Some? {
      PlacementRoundTrip(p.value);
    }
  }

  const DEVICE_NAMES := ["key", "connection_string", "hostname", "port", "transform"]

  lemma DeviceNamed(d: Device)
    ensures Named(DeviceFields(d), DEVICE_NAMES)
  {
  }

  lemma DeviceRoundTrip(d: Device)
    ensures DeviceFrom(DeviceTree(d)) == if d.key == "" then None else Some(DeviceBack(d))
  {
    var fs := DeviceFields(d);
    DeviceNamed(d);
    hide Find, Keep, Named, TransformTree, TransformFrom;
    FindField(fs, DEVICE_NAMES, 0);
    FindField(fs, DEVICE_NAMES, 1);
    FindField(fs, DEVICE_NAMES, 2);
    FindField(fs, DEVICE_NAMES, 3);
    FindField(fs, DEVICE_NAMES, 4);
    TransformRoundTrip(d.transform);
  }

  lemma {:induction false} DevicesRoundTrip(ds: seq<Device>)
    ensures DevicesFrom(DeviceTrees(ds)) == DevicesBack(ds)
  {
    hide DeviceFrom, DeviceTree, DeviceBack;
    if ds != [] {
      var n := |ds| - 1;
      DevicesRoundTrip(ds[..n]);
      DeviceRoundTrip(ds[n]);
      assert DeviceTrees(ds)[..|DeviceTrees(ds)| - 1] == DeviceTrees(ds[..n]);
    }
  }

  const SCENE_NAMES := ["key", "name", "description", "user", "thumbnail", "region", "latitude", "active", "public",
                        "longitude", "distance", "assets", "tags", "transform", "devices"]

  lemma SceneNamed(s: Scene)
    ensures Named(SceneFields(s), SCENE_NAMES)
  {
    hide DeviceTrees, TransformTree, Texts, Text, Above;
  }

  lemma NotPrivate()
    ensures forall i :: 0 <= i < |SCENE_NAMES| ==> SCENE_NAMES[i] != "private"
  {
  }

  /** What is found under the i-th name of a printed scene. */
  lemma SceneFind(s: Scene, i: nat)
    requires i < |SCENE_NAMES|
    ensures Find(Keep(SceneFields(s)), SCENE_NAMES[i]) == SceneFields(s)[i].value
  {
    hide Keep, Find, SceneFields;
    SceneNamed(s);
    FindField(SceneFields(s), SCENE_NAMES, i);
  }

  lemma SceneTexts(s: Scene)
    ensures var m := Keep(SceneFields(s));
      && TextOr(m, "key", "") == s.key && TextOr(m, "name", "") == s.name
      && TextOr(m, "description", "") == s.description && TextOr(m, "thumbnail", "") == s.thumbnail
      && TextOr(m, "region", "") == s.region
  {
    hide Find, Keep, TransformTree, DeviceTrees, Texts, Above;
    SceneFind(s, 0);
    SceneFind(s, 1);
    SceneFind(s, 2);
    SceneFind(s, 4);
    SceneFind(s, 5);
  }

  lemma SceneAmounts(s: Scene)
    ensures var m := Keep(SceneFields(s));
      && AmountOr(m, "latitude", UNSET) == AboveBack(s.latitude, UNSET)
      && AmountOr(m, "longitude", UNSET) == AboveBack(s.longitude, UNSET)
      && AmountOr(m, "distance", 0.0) == AboveBack(s.distance, 0.0)
  {
    hide Find, Keep, TransformTree, DeviceTrees, Texts, Text;
    SceneFind(s, 6);
    SceneFind(s, 9);
    SceneFind(s, 10);
  }

  lemma SceneFlags(s: Scene)
    ensures var m := Keep(SceneFields(s)); BoolOr(m, "active", true) == s.active && PublicFrom(m) == s.isPublic
  {
    hide Find, Keep, TransformTree, DeviceTrees, Texts, Text, Above;
    SceneFind(s, 7);
    SceneFind(s, 8);
    SceneNamed(s);
    NotPrivate();
    FindOther(SceneFields(s), "private");
  }

  lemma SceneParts(s: Scene)
    ensures var m := Keep(SceneFields(s));
      && StringsOf(ItemsOf(Find(m, "assets"))) == s.assets && StringsOf(ItemsOf(Find(m, "tags"))) == s.tags
      && TransformFrom(Find(m, "transform")) == s.transform
      && DevicesFrom(ItemsOf(Find(m, "devices"))) == DevicesBack(s.devices)
  {
    hide Find, Keep, TransformTree, TransformFrom, DevicesFrom, DeviceTrees, StringsOf, Texts, DevicesBack, Text, Above;
    SceneFind(s, 11);
    SceneFind(s, 12);
    SceneFind(s, 13);
    SceneFind(s, 14);
    StringsRoundTrip(s.assets);
    StringsRoundTrip(s.tags);
    TransformRoundTrip(s.transform);
    DevicesRoundTrip(s.devices);
  }

  lemma SceneRoundTrip(s: Scene)
    ensures SceneFrom(SceneTree(s)) == SceneBack(s)
  {
    SceneTexts(s);
    SceneAmounts(s);
    SceneFlags(s);
    SceneParts(s);
    hide Find, Keep, SceneFields, TransformFrom, DevicesFrom, StringsOf, DevicesBack;
    hide TextOr, AmountOr, BoolOr, PublicFrom;
  }

  lemma {:induction false} ScenesRoundTrip(ss: seq<Scene>)
    ensures ScenesFrom(SceneTrees(ss)) == ScenesBack(ss)
  {
    hide SceneFrom, SceneTree, SceneBack;
    if ss != [] {
      var n := |ss| - 1;
      ScenesRoundTrip(ss[..n]);
      SceneRoundTrip(ss[n]);
      assert SceneTrees(ss)[..|SceneTrees(ss)| - 1] == SceneTrees(ss[..n]);
    }
  }

  const LIST_NAMES := ["msg_type", "err_code", "err_msg", "transaction_id", "encryption_password", "encryption_salt",
                       "encryption_key", "encryption_iv", "decryption_password", "decryption_salt",
                       "decryption_key", "decryption_iv", "event_destination_host", "event_destination_port",
                       "num_records", "start_record", "scenes"]

  lemma NotOperation()
    ensures forall i :: 0 <= i < |LIST_NAMES| ==> LIST_NAMES[i] != "operation"
  {
  }

  lemma ListNamed(l: SceneList)
    requires Countable(l)
    ensures Named(ListFields(l), LIST_NAMES)
  {
    hide SceneTrees, Text, Uint, Returned, ReturnedScenes;
  }

  /** What is found under the i-th name of a printed list. */
  lemma ListFind(l: SceneList, i: nat)
    requires Countable(l) && i < |LIST_NAMES|
    ensures Find(Keep(ListFields(l)), LIST_NAMES[i]) == ListFields(l)[i].value
  {
    hide Keep, Find, ListFields;
    ListNamed(l);
    FindField(ListFields(l), LIST_NAMES, i);
  }

  lemma ListTexts(l: SceneList)
    requires Countable(l)
    ensures var m := Keep(ListFields(l));
      && TextOr(m, "err_msg", "") == l.errMsg && TextOr(m, "transaction_id", "") == l.transactionId
      && TextOr(m, "decryption_password", "") == l.decPassword && TextOr(m, "decryption_salt", "") == l.decSalt
      && TextOr(m, "decryption_key", "") == l.decKey && TextOr(m, "decryption_iv", "") == l.decIv
      && TextOr(m, "event_destination_host", "") == l.host
  {
    hide Find, Keep, SceneTrees, Uint, Returned, ReturnedScenes;
    ListFind(l, 2);
    ListFind(l, 3);
    ListFind(l, 8);
    ListFind(l, 9);
    ListFind(l, 10);
    ListFind(l, 11);
    ListFind(l, 12);
  }

  lemma ListEncryption(l: SceneList)
    requires Countable(l)
    ensures var m := Keep(ListFields(l));
      && TextOr(m, "encryption_iv", TextOr(m, "encryption_salt", "")) == (if l.encIv != "" then l.encIv else l.encSalt)
      && TextOr(m, "encryption_key", TextOr(m, "encryption_password", "")) ==
           (if l.encKey != "" then l.encKey else l.encPassword)
  {
    hide Find, Keep, SceneTrees, Uint, Returned, ReturnedScenes;
    ListFind(l, 4);
    ListFind(l, 5);
    ListFind(l, 6);
    ListFind(l, 7);
  }

  lemma ListInts(l: SceneList)
    requires Countable(l)
    ensures var m := Keep(ListFields(l));
      && IntOr(m, "msg_type", -1) == IntBack(l.msgType, -1) && IntOr(m, "err_code", 100) == IntBack(l.errCode, 100)
      && IntOr(m, "num_records", 10) == IntBack(Returned(l), 10)
      && IntOr(m, "start_record", 0) == IntBack(l.startRecord, 0) && IntOr(m, "operation", APPEND) == APPEND
  {
    hide Find, Keep, SceneTrees, Returned, ReturnedScenes, Text;
    ListFind(l, 0);
    ListFind(l, 1);
    ListFind(l, 14);
    ListFind(l, 15);
    ListNamed(l);
    NotOperation();
    FindOther(ListFields(l), "operation");
  }

  lemma ListScenes(l: SceneList)
    requires Countable(l)
    ensures ScenesFrom(ItemsOf(Find(Keep(ListFields(l)), "scenes"))) == ScenesBack(ReturnedScenes(l))
  {
    hide Find, Keep, SceneTrees, Returned, ReturnedScenes, Text, Uint, ScenesFrom, ScenesBack;
    ListFind(l, 16);
    ScenesRoundTrip(ReturnedScenes(l));
  }

  /** Parsing what was printed, for every list. */
  lemma ListRoundTrip(l: SceneList, port: Int32)
    requires Countable(l)
    ensures ListFrom(TreeOf(l), port) == ListBack(l, port)
  {
    ListTexts(l);
    ListEncryption(l);
    ListInts(l);
    ListScenes(l);
    hide Find, Keep, ListFields, ScenesFrom, ScenesBack, TextOr, IntOr, IntBack, Returned, ReturnedScenes;
  }
}
