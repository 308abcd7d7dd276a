/** The scene list object: parsed from a document member by member, and printed through a writer. */
module JsonSceneList {
  import opened Wrappers
  import opened Json
  import opened SceneLists
  import opened SceneListProofs

  // ---------------------------------------------------------------- parsing

  method ParseStrings(items: seq<Tree>) returns (out: seq<string>)
    ensures out == StringsOf(items)
  {
    out := [];
    for i := 0 to |items|
      invariant out == StringsOf(items[..i])
    {
      assert items[..i + 1][..i] == items[..i];
      if items[i].Str? {
        out := out + [items[i].s];
      }
    }
    assert items[..|items|] == items;
  }

  /** Items past the third would be out of bounds; here they are ignored. */
  method ParseTriple(was: Option<Triple>, items: seq<Tree>) returns (t: Option<Triple>)
    ensures t == PutAll(was, items)
  {
    t := was;
    var i := 0;
    for j := 0 to |items|
      invariant i == j && t == PutAll(was, items[..j])
    {
      assert items[..j + 1][..j] == items[..j];
      if items[j].Real? {
        t := Put(t, i, items[j].r);
      } else if IsInt(items[j]) {
        t := Put(t, i, items[j].n as real);
      }
      i := i + 1;
    }
    assert items[..|items|] == items;
  }

  method ParsePlacement(m: seq<Member>) returns (p: Placement)
    ensures p == PlacementFrom(m)
  {
    p := Placement(None, None);
    for i := 0 to |m|
      invariant p == PlacementFrom(m[..i])
    {
      assert m[..i + 1][..i] == m[..i];
      if m[i].name == "translation" {
        if m[i].value.Arr? {
          var t := ParseTriple(p.translation, m[i].value.items);
          p := p.(translation := t);
        }
      } else if m[i].name == "rotation" {
        if m[i].value.Arr? {
          var t := ParseTriple(p.rotation, m[i].value.items);
          p := p.(rotation := t);
        }
      }
    }
    assert m[..|m|] == m;
  }

  method ParseTransform(v: Option<Tree>) returns (p: Option<Placement>)
    ensures p == TransformFrom(v)
  {
    p := None;
    if v.Some? {
      var t := ParsePlacement(MembersOf(v.value));
      p := Some(t);
    }
  }

  method ParseDevices(items: seq<Tree>) returns (ds: seq<Device>)
    ensures ds == DevicesFrom(items)
  {
    hide Find, TransformFrom;
    ds := [];
    for i := 0 to |items|
      invariant ds == DevicesFrom(items[..i])
    {
      assert items[..i + 1][..i] == items[..i];
      var m := MembersOf(items[i]);
      var key := Find(m, "key");
      if key.Some? {
        if key.value.Str? {
          var d := Device(key.value.s, "", "", NO_PORT, None);
          d := d.(connection := TextOr(m, "connection_string", d.connection));
          d := d.(host := TextOr(m, "hostname", d.host));
          d := d.(port := IntOr(m, "port", d.port));
          var t := ParseTransform(Find(m, "transform"));
          d := d.(transform := t);
          ds := ds + [d];
        }
      }
    }
    assert items[..|items|] == items;
  }

  method ParseTexts(m: seq<Member>) returns (s: Scene)
    ensures s == NEW_SCENE.(
      key := TextOr(m, "key", ""), name := TextOr(m, "name", ""), description := TextOr(m, "description", ""),
      thumbnail := TextOr(m, "thumbnail", ""), region := TextOr(m, "region", ""))
  {
    hide TextOr;
    s := NEW_SCENE;
    s := s.(key := TextOr(m, "key", s.key));
    s := s.(name := TextOr(m, "name", s.name));
    s := s.(description := TextOr(m, "description", s.description));
    s := s.(thumbnail := TextOr(m, "thumbnail", s.thumbnail));
    s := s.(region := TextOr(m, "region", s.region));
  }

  method ParseValues(m: seq<Member>, before: Scene) returns (s: Scene)
    requires before.active && before.isPublic
    requires before.latitude == UNSET && before.longitude == UNSET && before.distance == 0.0
    ensures s == before.(
      active := BoolOr(m, "active", true), isPublic := PublicFrom(m), latitude := AmountOr(m, "latitude", UNSET),
      longitude := AmountOr(m, "longitude", UNSET), distance := AmountOr(m, "distance", 0.0))
  {
    hide Find, AmountOr, BoolOr;
    s := before;
    s := s.(active := BoolOr(m, "active", s.active));
    s := s.(isPublic := BoolOr(m, "public", s.isPublic));
    var p := Find(m, "private");
    if p.Some? {
      if p.value.Bool? {
        s := s.(isPublic := !p.value.b);
      }
    }
    s := s.(latitude := AmountOr(m, "latitude", s.latitude));
    s := s.(longitude := AmountOr(m, "longitude", s.longitude));
    s := s.(distance := AmountOr(m, "distance", s.distance));
  }

  method ParseScene(t: Tree) returns (s: Scene)
    ensures s == SceneFrom(t)
  {
    hide Find, TextOr, AmountOr, BoolOr, PublicFrom, StringsOf, TransformFrom, DevicesFrom;
    var m := MembersOf(t);
    s := ParseTexts(m);
    s := ParseValues(m, s);
    var assets := ParseStrings(ItemsOf(Find(m, "assets")));
    var tags := ParseStrings(ItemsOf(Find(m, "tags")));
    var transform := ParseTransform(Find(m, "transform"));
    var devices := ParseDevices(ItemsOf(Find(m, "devices")));
    s := s.(assets := assets, tags := tags, transform := transform, devices := devices);
  }

  method ParseScenes(items: seq<Tree>) returns (ss: seq<Scene>)
    ensures ss == ScenesFrom(items)
  {
    hide SceneFrom;
    ss := [];
    for i := 0 to |items|
      invariant ss == ScenesFrom(items[..i])
    {
      assert items[..i + 1][..i] == items[..i];
      var s := ParseScene(items[i]);
      ss := ss + [s];
    }
    assert items[..|items|] == items;
  }

  // ---------------------------------------------------------------- printing

  function EmitField(f: Field): seq<Event> {
    if f.value.None? then [] else [Key(f.name)] + Emit(f.value.value)
  }

  /** The events of an object whose first k fields have been written. */
  ghost predicate Written(out: seq<Event>, fields: seq<Field>, k: nat) {
    k <= |fields| && out == [StartObject] + EmitMembers(Keep(fields[..k]))
  }

  lemma WriteOne(out: seq<Event>, fields: seq<Field>, k: nat)
    requires Written(out, fields, k) && k < |fields|
    ensures Written(out + EmitField(fields[k]), fields, k + 1)
  {
    hide Emit;
    var f := fields[k];
    assert fields[..k + 1][..k] == fields[..k];
    var last := if f.value.None? then [] else [Member(f.name, f.value.value)];
    EmitMembersConcat(Keep(fields[..k]), last);
    assert EmitMembers(last) == EmitField(f) by {
      if f.value.Some? {
        assert last[1..] == [];
      }
    }
  }

  lemma WrittenAll(out: seq<Event>, fields: seq<Field>)
    requires Written(out, fields, |fields|)
    ensures out + [EndObject] == Emit(Obj(Keep(fields)))
  {
    assert fields[..|fields|] == fields;
  }

  /** A key and its value, written when there is one. */
  method WriteField(before: seq<Event>, name: string, value: Option<Tree>, ghost fields: seq<Field>, ghost k: nat)
    returns (out: seq<Event>)
    requires Written(before, fields, k) && k < |fields| && fields[k] == Field(name, value)
    requires value.Some? ==> IsScalar(value.value)
    ensures Written(out, fields, k + 1)
  {
    hide Keep, Written;
    WriteOne(before, fields, k);
    out := before;
    if value.Some? {
      out := out + [Key(name)];
      out := out + [Scalar(value.value)];
      assert out == before + EmitField(fields[k]);
    } else {
      assert out == before + EmitField(fields[k]);
    }
  }

  /** A key and a text, written when it is not empty. */
  method WriteText(before: seq<Event>, name: string, text: string, ghost fields: seq<Field>, ghost k: nat)
    returns (out: seq<Event>)
    requires Written(before, fields, k) && k < |fields| && fields[k] == Field(name, Text(text))
    ensures Written(out, fields, k + 1)
  {
    hide Keep, Written, Emit;
    out := WriteField(before, name, Text(text), fields, k);
  }

  /** A key and a value of several events. */
  method WriteWhole(before: seq<Event>, name: string, events: seq<Event>, ghost t: Tree,
                    ghost fields: seq<Field>, ghost k: nat)
    returns (out: seq<Event>)
    requires Written(before, fields, k) && k < |fields| && fields[k] == Field(name, Some(t)) && events == Emit(t)
    ensures Written(out, fields, k + 1)
  {
    hide Keep, Written, Emit;
    WriteOne(before, fields, k);
    out := before + [Key(name)];
    out := out + events;
    assert out == before + EmitField(fields[k]);
  }

  method Strings(ss: seq<string>) returns (out: seq<Event>)
    ensures out == Emit(Arr(Texts(ss)))
  {
    out := [StartArray];
    for m := 0 to |ss|
      invariant out == [StartArray] + EmitItems(Texts(ss[..m]))
    {
      out := out + [Scalar(Str(ss[m]))];
      assert Texts(ss[..m + 1]) == Texts(ss[..m]) + [Str(ss[m])];
      EmitItemsConcat(Texts(ss[..m]), [Str(ss[m])]);
      assert [Str(ss[m])][1..] == [];
    }
    assert ss[..|ss|] == ss;
    out := out + [EndArray];
  }

  method Numbers(t: Triple) returns (out: seq<Event>)
    ensures out == Emit(TripleTree(t))
  {
    out := [StartArray, Scalar(Real(t.x)), Scalar(Real(t.y)), Scalar(Real(t.z)), EndArray];
    var a, b, c := Real(t.x), Real(t.y), Real(t.z);
    assert [a, b, c][1..] == [b, c] && [b, c][1..] == [c] && [c][1..] == [];
    assert EmitItems([c]) == [Scalar(c)];
    assert EmitItems([b, c]) == Emit(b) + EmitItems([c]);
    assert EmitItems([a, b, c]) == Emit(a) + EmitItems([b, c]);
  }

  method PlacementEvents(p: Placement) returns (out: seq<Event>)
    ensures out == Emit(PlacementTree(p))
  {
    hide Keep, Emit, TripleTree;
    ghost var fs := PlacementFields(p);
    out := [StartObject];
    NothingWritten(fs);
    if p.translation.Some? {
      var t := Numbers(p.translation.value);
      out := WriteWhole(out, "translation", t, TripleTree(p.translation.value), fs, 0);
    } else {
      out := WriteField(out, "translation", None, fs, 0);
    }
    if p.rotation.Some? {
      var t := Numbers(p.rotation.value);
      out := WriteWhole(out, "rotation", t, TripleTree(p.rotation.value), fs, 1);
    } else {
      out := WriteField(out, "rotation", None, fs, 1);
    }
    WrittenAll(out, fs);
    out := out + [EndObject];
  }

  lemma NothingWritten(fields: seq<Field>)
    ensures Written([StartObject], fields, 0)
  {
    assert fields[..0] == [];
  }

  method WriteTransform(before: seq<Event>, p: Option<Placement>, ghost fields: seq<Field>, ghost k: nat)
    returns (out: seq<Event>)
    requires Written(before, fields, k) && k < |fields| && fields[k] == Field("transform", TransformTree(p))
    ensures Written(out, fields, k + 1)
  {
    hide Keep, Emit, PlacementTree, Written;
    if p.Some? {
      var t := PlacementEvents(p.value);
      out := WriteWhole(before, "transform", t, PlacementTree(p.value), fields, k);
    } else {
      out := WriteField(before, "transform", None, fields, k);
    }
  }

  method DeviceEvents(d: Device) returns (out: seq<Event>)
    ensures out == Emit(DeviceTree(d))
  {
    ghost var fs := DeviceFields(d);
    NothingWritten(fs);
    hide Keep, Emit, TransformTree, Written, Text;
    out := [StartObject];
    out := WriteText(out, "key", d.key, fs, 0);
    out := WriteText(out, "connection_string", d.connection, fs, 1);
    out := WriteText(out, "hostname", d.host, fs, 2);
    out := WriteField(out, "port", if d.port < NO_PORT then Some(Uint(d.port)) else None, fs, 3);
    out := WriteTransform(out, d.transform, fs, 4);
    WrittenAll(out, fs);
    out := out + [EndObject];
  }

  method DevicesEvents(ds: seq<Device>) returns (out: seq<Event>)
    ensures out == Emit(Arr(DeviceTrees(ds)))
  {
    hide DeviceTree;
    out := [StartArray];
    for b := 0 to |ds|
      invariant out == [StartArray] + EmitItems(DeviceTrees(ds[..b]))
    {
      var d := DeviceEvents(ds[b]);
      out := out + d;
      assert ds[..b + 1][..b] == ds[..b];
      EmitItemsConcat(DeviceTrees(ds[..b]), [DeviceTree(ds[b])]);
      assert [DeviceTree(ds[b])][1..] == [];
      assert EmitItems([DeviceTree(ds[b])]) == Emit(DeviceTree(ds[b]));
    }
    assert ds[..|ds|] == ds;
    out := out + [EndArray];
  }

  method WriteSceneTexts(before: seq<Event>, s: Scene) returns (out: seq<Event>)
    requires Written(before, SceneFields(s), 0)
    ensures Written(out, SceneFields(s), 6)
  {
    ghost var fs := SceneFields(s);
    hide Keep, Emit, TransformTree, Written, Texts, DeviceTrees, Above, Text;
    out := WriteText(before, "key", s.key, fs, 0);
    out := WriteText(out, "name", s.name, fs, 1);
    out := WriteText(out, "description", s.description, fs, 2);
    out := WriteText(out, "user", s.user, fs, 3);
    out := WriteText(out, "thumbnail", s.thumbnail, fs, 4);
    out := WriteText(out, "region", s.region, fs, 5);
  }

  method WriteSceneValues(before: seq<Event>, s: Scene) returns (out: seq<Event>)
    requires Written(before, SceneFields(s), 6)
    ensures Written(out, SceneFields(s), 11)
  {
    ghost var fs := SceneFields(s);
    hide Keep, Emit, TransformTree, Written, Texts, DeviceTrees, Text;
    out := WriteField(before, "latitude", Above(s.latitude), fs, 6);
    out := WriteField(out, "active", Some(Bool(s.active)), fs, 7);
    out := WriteField(out, "public", Some(Bool(s.isPublic)), fs, 8);
    out := WriteField(out, "longitude", Above(s.longitude), fs, 9);
    out := WriteField(out, "distance", Above(s.distance), fs, 10);
  }

  method WriteSceneParts(before: seq<Event>, s: Scene) returns (out: seq<Event>)
    requires Written(before, SceneFields(s), 11)
    ensures Written(out, SceneFields(s), 15)
  {
    ghost var fs := SceneFields(s);
    hide Keep, Emit, TransformTree, Written, Texts, DeviceTrees, Text, Above;
    var assets := Strings(s.assets);
    out := WriteWhole(before, "assets", assets, Arr(Texts(s.assets)), fs, 11);
    var tags := Strings(s.tags);
    out := WriteWhole(out, "tags", tags, Arr(Texts(s.tags)), fs, 12);
    out := WriteTransform(out, s.transform, fs, 13);
    var devices := DevicesEvents(s.devices);
    out := WriteWhole(out, "devices", devices, Arr(DeviceTrees(s.devices)), fs, 14);
  }

  method SceneEvents(s: Scene) returns (out: seq<Event>)
    ensures out == Emit(SceneTree(s))
  {
    SceneNamed(s);
    hide Keep, Emit, Written, SceneFields;
    out := [StartObject];
    NothingWritten(SceneFields(s));
    out := WriteSceneTexts(out, s);
    out := WriteSceneValues(out, s);
    out := WriteSceneParts(out, s);
    WrittenAll(out, SceneFields(s));
    out := out + [EndObject];
  }

  lemma HeaderFields(l: SceneList)
    requires Countable(l)
    ensures var fs := ListFields(l);
      && |fs| == 17
      && fs[0] == Field("msg_type", Some(Uint(l.msgType))) && fs[1] == Field("err_code", Some(Uint(l.errCode)))
      && fs[2] == Field("err_msg", Text(l.errMsg)) && fs[3] == Field("transaction_id", Text(l.transactionId))
  {
    hide SceneTrees, Text, Returned, ReturnedScenes, Uint;
  }

  lemma SecretFields(l: SceneList)
    requires Countable(l)
    ensures var fs := ListFields(l);
      && |fs| == 17
      && fs[4] == Field("encryption_password", Text(l.encPassword))
      && fs[5] == Field("encryption_salt", Text(l.encSalt))
      && fs[6] == Field("encryption_key", Text(l.encKey)) && fs[7] == Field("encryption_iv", Text(l.encIv))
      && fs[8] == Field("decryption_password", Text(l.decPassword))
      && fs[9] == Field("decryption_salt", Text(l.decSalt))
      && fs[10] == Field("decryption_key", Text(l.decKey)) && fs[11] == Field("decryption_iv", Text(l.decIv))
  {
    hide SceneTrees, Text, Returned, ReturnedScenes, Uint;
  }

  lemma TailFields(l: SceneList)
    requires Countable(l)
    ensures var fs := ListFields(l);
      && |fs| == 17
      && fs[12] == Field("event_destination_host", Text(l.host))
      && fs[13] == Field("event_destination_port", if l.port > 0 then Some(Num(l.port)) else None)
      && fs[14] == Field("num_records", Some(Uint(Returned(l))))
      && fs[15] == Field("start_record", Some(Uint(l.startRecord)))
      && fs[16] == Field("scenes", Some(Arr(SceneTrees(ReturnedScenes(l)))))
  {
    hide SceneTrees, Text, Returned, ReturnedScenes, Uint;
  }

  class JsonSceneList {
    var list: SceneList

    /** `port` is whatever the uninitialised event destination port holds. */
    constructor (d: Tree, port: Int32)
      ensures list == if d.Obj? then ListFrom(d, port) else NewList(port)
    {
      hide Find, TextOr, IntOr, ScenesFrom;
      var l := NewList(port);
      if d.Obj? {
        var m := d.members;
        l := l.(msgType := IntOr(m, "msg_type", l.msgType));
        l := l.(operation := IntOr(m, "operation", l.operation));
        l := l.(transactionId := TextOr(m, "transaction_id", l.transactionId));
        l := l.(encKey := TextOr(m, "encryption_password", l.encKey));
        l := l.(encSalt := TextOr(m, "encryption_salt", l.encSalt));
        l := l.(encKey := TextOr(m, "encryption_key", l.encKey));
        l := l.(encSalt := TextOr(m, "encryption_iv", l.encSalt));
        l := l.(decPassword := TextOr(m, "decryption_password", l.decPassword));
        l := l.(decSalt := TextOr(m, "decryption_salt", l.decSalt));
        l := l.(decKey := TextOr(m, "decryption_key", l.decKey));
        l := l.(decIv := TextOr(m, "decryption_iv", l.decIv));
        l := l.(host := TextOr(m, "event_destination_host", l.host));
        l := l.(errCode := IntOr(m, "err_code", l.errCode));
        l := l.(errMsg := TextOr(m, "err_msg", l.errMsg));
        l := l.(numRecords := IntOr(m, "num_records", l.numRecords));
        l := l.(startRecord := IntOr(m, "start_record", l.startRecord));
        var scenes := ParseScenes(ItemsOf(Find(m, "scenes")));
        l := l.(scenes := l.scenes + scenes);
      }
      list := l;
    }

    method ScenesEvents(count: Int32) returns (out: seq<Event>)
      requires Countable(list) && count == Returned(list)
      ensures out == Emit(Arr(SceneTrees(ReturnedScenes(list))))
    {
      hide SceneTree;
      out := [StartArray];
      ghost var ss := ReturnedScenes(list);
      var a := 0;
      while a < count
        invariant 0 <= a && (0 <= count ==> a <= count) && (count < 0 ==> a == 0)
        invariant out == [StartArray] + EmitItems(SceneTrees(ss[..a]))
      {
        var s := SceneEvents(list.scenes[a]);
        out := out + s;
        assert ss[..a + 1][..a] == ss[..a];
        EmitItemsConcat(SceneTrees(ss[..a]), [SceneTree(ss[a])]);
        assert [SceneTree(ss[a])][1..] == [];
        assert EmitItems([SceneTree(ss[a])]) == Emit(SceneTree(ss[a]));
        a := a + 1;
      }
      assert ss[..a] == ss;
      out := out + [EndArray];
    }

    method WriteHeader(before: seq<Event>) returns (out: seq<Event>)
      requires Countable(list) && Written(before, ListFields(list), 0)
      ensures Written(out, ListFields(list), 4)
    {
      ghost var fs := ListFields(list);
      HeaderFields(list);
      hide Keep, Emit, Written, SceneTrees, Text, Returned, ReturnedScenes, ListFields;
      out := WriteField(before, "msg_type", Some(Uint(list.msgType)), fs, 0);
      out := WriteField(out, "err_code", Some(Uint(list.errCode)), fs, 1);
      out := WriteText(out, "err_msg", list.errMsg, fs, 2);
      out := WriteText(out, "transaction_id", list.transactionId, fs, 3);
    }

    method WriteSecrets(before: seq<Event>) returns (out: seq<Event>)
      requires Countable(list) && Written(before, ListFields(list), 4)
      ensures Written(out, ListFields(list), 12)
    {
      ghost var fs := ListFields(list);
      SecretFields(list);
      hide Keep, Emit, Written, SceneTrees, Uint, Returned, ReturnedScenes, Text, ListFields;
      out := WriteText(before, "encryption_password", list.encPassword, fs, 4);
      out := WriteText(out, "encryption_salt", list.encSalt, fs, 5);
      out := WriteText(out, "encryption_key", list.encKey, fs, 6);
      out := WriteText(out, "encryption_iv", list.encIv, fs, 7);
      out := WriteText(out, "decryption_password", list.decPassword, fs, 8);
      out := WriteText(out, "decryption_salt", list.decSalt, fs, 9);
      out := WriteText(out, "decryption_key", list.decKey, fs, 10);
      out := WriteText(out, "decryption_iv", list.decIv, fs, 11);
    }

    method WriteDestination(before: seq<Event>) returns (out: seq<Event>)
      requires Countable(list) && Written(before, ListFields(list), 12)
      ensures Written(out, ListFields(list), 14)
    {
      hide Keep, Emit, Written, SceneTrees, ReturnedScenes, Returned, Uint, Text, ListFields;
      ghost var fs := ListFields(list);
      TailFields(list);
      out := WriteText(before, "event_destination_host", list.host, fs, 12);
      out := WriteField(out, "event_destination_port", if list.port > 0 then Some(Num(list.port)) else None, fs, 13);
    }

    method WriteScenes(before: seq<Event>) returns (out: seq<Event>)
      requires Countable(list) && Written(before, ListFields(list), 14)
      ensures Written(out, ListFields(list), 17)
    {
      hide Keep, Emit, Written, SceneTrees, ReturnedScenes, Text, ListFields;
      ghost var fs := ListFields(list);
      TailFields(list);
      var count: Int32 := |list.scenes|;
      if list.numRecords != -1 && list.numRecords < count {
        count := list.numRecords;
      }
      out := WriteField(before, "num_records", Some(Uint(count)), fs, 14);
      out := WriteField(out, "start_record", Some(Uint(list.startRecord)), fs, 15);
      var scenes := ScenesEvents(count);
      out := WriteWhole(out, "scenes", scenes, Arr(SceneTrees(ReturnedScenes(list))), fs, 16);
    }

    method ToMsgString() returns (out: seq<Event>)
      requires Countable(list)
      ensures out == Emit(TreeOf(list))
    {
      ListNamed(list);
      hide Keep, Emit, Written, ListFields;
      out := [StartObject];
      NothingWritten(ListFields(list));
      out := WriteHeader(out);
      out := WriteSecrets(out);
      out := WriteDestination(out);
      out := WriteScenes(out);
      WrittenAll(out, ListFields(list));
      out := out + [EndObject];
    }
  }

  /** The whole way: print a list, read the events as a document, parse it. */
  lemma PrintReadParse(l: SceneList, port: Int32)
    requires Countable(l)
    ensures var r := Read(Emit(TreeOf(l)));
      r.Some? && r.value.rest == [] && r.value.value.Obj? && ListFrom(r.value.value, port) == ListBack(l, port)
  {
    ReadEmit(TreeOf(l), []);
    assert Emit(TreeOf(l)) + [] == Emit(TreeOf(l));
    ListRoundTrip(l, port);
    hide Read, Emit, Keep, ListFrom, ListFields;
  }
}
