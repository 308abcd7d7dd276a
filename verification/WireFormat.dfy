/**
 The message format from outside: under which name each field is read and printed, and what is made
 of members that the printer never writes.
 */
module WireFormat {
  import opened Wrappers
  import opened Json
  import opened SceneLists
  import opened SceneListProofs

  // ---------------------------------------------------------------- one member

  /** A string is taken as it is; anything else, or nothing, leaves the default. */
  predicate ReadText(v: Option<Tree>, got: string, default: string) {
    if v.Some? && v.value.Str? then got == v.value.s else got == default
  }

  predicate ReadFlag(v: Option<Tree>, got: bool, default: bool) {
    if v.Some? && v.value.Bool? then got == v.value.b else got == default
  }

  /** A number that fits an int is taken. */
  predicate ReadInt(v: Option<Tree>, got: int, default: int) {
    if v.Some? && v.value.Num? && -2147483648 <= v.value.n <= 2147483647 then got == v.value.n else got == default
  }

  /** A double is taken, and so is a number that fits an int. */
  predicate ReadAmount(v: Option<Tree>, got: real, default: real) {
    if v.Some? && v.value.Real? then got == v.value.r
    else if v.Some? && v.value.Num? && -2147483648 <= v.value.n <= 2147483647 then got == v.value.n as real
    else got == default
  }

  lemma TextIsRead(m: seq<Member>, name: string, default: string)
    ensures ReadText(Find(m, name), TextOr(m, name, default), default)
  {
    hide Find;
  }

  lemma FlagIsRead(m: seq<Member>, name: string, default: bool)
    ensures ReadFlag(Find(m, name), BoolOr(m, name, default), default)
  {
    hide Find;
  }

  lemma IntIsRead(m: seq<Member>, name: string, default: Int32)
    ensures ReadInt(Find(m, name), IntOr(m, name, default), default)
  {
    hide Find;
  }

  lemma AmountIsRead(m: seq<Member>, name: string, default: real)
    ensures ReadAmount(Find(m, name), AmountOr(m, name, default), default)
  {
    hide Find;
  }

  // ---------------------------------------------------------------- reading a scene

  /** Whatever the members: each text comes from the member of its name; the user from none. */
  lemma SceneTextsRead(m: seq<Member>)
    ensures var s := SceneFrom(Obj(m));
      && ReadText(Find(m, "key"), s.key, "") && ReadText(Find(m, "name"), s.name, "")
      && ReadText(Find(m, "description"), s.description, "") && ReadText(Find(m, "thumbnail"), s.thumbnail, "")
      && ReadText(Find(m, "region"), s.region, "") && s.user == ""
  {
    hide Find, ReadText, TextOr, AmountOr, BoolOr, PublicFrom, StringsOf, TransformFrom, DevicesFrom;
    TextIsRead(m, "key", "");
    TextIsRead(m, "name", "");
    TextIsRead(m, "description", "");
    TextIsRead(m, "thumbnail", "");
    TextIsRead(m, "region", "");
  }

  /** Doubles and ints alike are read as amounts. */
  lemma SceneAmountsRead(m: seq<Member>)
    ensures var s := SceneFrom(Obj(m));
      && ReadAmount(Find(m, "latitude"), s.latitude, -9999.0) && ReadAmount(Find(m, "longitude"), s.longitude, -9999.0)
      && ReadAmount(Find(m, "distance"), s.distance, 0.0) && ReadFlag(Find(m, "active"), s.active, true)
  {
    hide Find, ReadAmount, ReadFlag, TextOr, AmountOr, BoolOr, PublicFrom, StringsOf, TransformFrom, DevicesFrom;
    AmountIsRead(m, "latitude", -9999.0);
    AmountIsRead(m, "longitude", -9999.0);
    AmountIsRead(m, "distance", 0.0);
    FlagIsRead(m, "active", true);
  }

  /** "private" says the opposite of what is kept, and has the last word over "public"; a scene is
      public when neither is given. */
  lemma PublicnessRead(m: seq<Member>)
    ensures var s := SceneFrom(Obj(m)); var p, q := Find(m, "private"), Find(m, "public");
      if p.Some? && p.value.Bool? then s.isPublic == !p.value.b
      else if q.Some? && q.value.Bool? then s.isPublic == q.value.b
      else s.isPublic
  {
    hide Find, TextOr, AmountOr, StringsOf, TransformFrom, DevicesFrom;
  }

  /** A private scene is never public, and a public one that is not called private is. */
  lemma PrivateWins(b: bool, m: seq<Member>)
    ensures !SceneFrom(Obj([Member("private", Bool(true)), Member("public", Bool(b))] + m)).isPublic
    ensures SceneFrom(Obj([Member("public", Bool(b)), Member("private", Bool(false))] + m)).isPublic
  {
    var a := [Member("private", Bool(true)), Member("public", Bool(b))] + m;
    var c := [Member("public", Bool(b)), Member("private", Bool(false))] + m;
    PublicnessRead(a);
    PublicnessRead(c);
    assert c[1..][0] == Member("private", Bool(false));
  }

  lemma ScenePartsRead(m: seq<Member>)
    ensures var s := SceneFrom(Obj(m));
      && s.assets == StringsOf(ItemsOf(Find(m, "assets"))) && s.tags == StringsOf(ItemsOf(Find(m, "tags")))
      && s.devices == DevicesFrom(ItemsOf(Find(m, "devices"))) && s.transform == TransformFrom(Find(m, "transform"))
  {
    hide Find, TextOr, AmountOr, BoolOr, PublicFrom, StringsOf, TransformFrom, DevicesFrom;
  }

  // ---------------------------------------------------------------- reading arrays

  /** An array has its items; what is no array, or not there, has none. */
  lemma ItemsRead(v: Option<Tree>, items: seq<Tree>)
    ensures ItemsOf(Some(Arr(items))) == items
    ensures v.None? || !v.value.Arr? ==> ItemsOf(v) == []
  {
  }

  /** Strings are kept in their order, anything else in the array is skipped. */
  lemma {:induction false} StringsRead(a: seq<Tree>, t: Tree, b: seq<Tree>)
    ensures StringsOf([]) == []
    ensures StringsOf(a + [t] + b) == StringsOf(a) + (if t.Str? then [t.s] else []) + StringsOf(b)
  {
    hide StringsOf;
    if b == [] {
      assert a + [t] + b == a + [t];
      StringsStep(a, t);
      NoStrings();
    } else {
      var n := |b| - 1;
      StringsRead(a, t, b[..n]);
      assert a + [t] + b == (a + [t] + b[..n]) + [b[n]];
      StringsStep(a + [t] + b[..n], b[n]);
      assert b == b[..n] + [b[n]];
      StringsStep(b[..n], b[n]);
      NoStrings();
    }
  }

  lemma NoStrings()
    ensures StringsOf([]) == []
  {
  }

  lemma StringsStep(a: seq<Tree>, t: Tree)
    ensures StringsOf(a + [t]) == StringsOf(a) + if t.Str? then [t.s] else []
  {
    assert (a + [t])[..|a|] == a;
  }

  /** A device is what its members say, when it has a key; otherwise it is not there. */
  lemma DeviceRead(m: seq<Member>)
    ensures var key := Find(m, "key"); var d := DeviceFrom(Obj(m));
      if key.None? || !key.value.Str? then d == None
      else
        && d.Some? && d.value.key == key.value.s
        && ReadText(Find(m, "connection_string"), d.value.connection, "")
        && ReadText(Find(m, "hostname"), d.value.host, "")
        && ReadInt(Find(m, "port"), d.value.port, 999999)
        && d.value.transform == TransformFrom(Find(m, "transform"))
  {
    hide Find, ReadText, ReadInt, TextOr, IntOr, TransformFrom;
    TextIsRead(m, "connection_string", "");
    TextIsRead(m, "hostname", "");
    IntIsRead(m, "port", 999999);
  }

  lemma DevicesStep(a: seq<Tree>, t: Tree)
    ensures DevicesFrom([]) == []
    ensures DevicesFrom(a + [t]) == DevicesFrom(a) + if DeviceFrom(t).None? then [] else [DeviceFrom(t).value]
  {
    hide DeviceFrom;
    assert (a + [t])[..|a|] == a;
  }

  lemma ScenesStep(a: seq<Tree>, t: Tree)
    ensures ScenesFrom([]) == [] && ScenesFrom(a + [t]) == ScenesFrom(a) + [SceneFrom(t)]
  {
    hide SceneFrom;
    assert (a + [t])[..|a|] == a;
  }

  /** The i-th component of three numbers, doubles or ints; what is no number is skipped. */
  predicate ReadComponent(items: seq<Tree>, i: nat, got: real) {
    ReadAmount(if i < |items| then Some(items[i]) else None, got, 0.0)
  }

  lemma {:induction false} TripleRead(items: seq<Tree>)
    ensures var t := PutAll(None, items);
      && (t.Some? <==> exists i :: 0 <= i < |items| && i < 3 && Amount(items[i]).Some?)
      && (t.Some? ==>
           && ReadComponent(items, 0, t.value.x) && ReadComponent(items, 1, t.value.y)
           && ReadComponent(items, 2, t.value.z))
  {
    if items != [] {
      var n := |items| - 1;
      TripleRead(items[..n]);
      assert forall i :: 0 <= i < n ==> items[..n][i] == items[i];
    }
  }

  /** A transform is read for any member "transform", even one that is no object; its parts come from
      the members "translation" and "rotation". */
  lemma TransformRead(v: Option<Tree>)
    ensures v.None? <==> TransformFrom(v) == None
    ensures v.Some? && !v.value.Obj? ==> TransformFrom(v) == Some(Placement(None, None))
  {
  }

  /** Members of other names count for nothing, and each part goes on from what it was. */
  lemma PlacementStep(m: seq<Member>, e: Member)
    ensures PlacementFrom([]) == Placement(None, None)
    ensures var was, now := PlacementFrom(m), PlacementFrom(m + [e]);
      && now.translation ==
           (if e.name == "translation" then PutAll(was.translation, ItemsOf(Some(e.value))) else was.translation)
      && now.rotation ==
           (if e.name == "rotation" then PutAll(was.rotation, ItemsOf(Some(e.value))) else was.rotation)
  {
    hide PutAll;
    assert (m + [e])[..|m|] == m;
  }

  // ---------------------------------------------------------------- reading a list

  /** The encryption password is read into the key, the encryption iv into the salt; "encryption_key"
      and "encryption_iv" come later and win. The destination port is never read. */
  lemma ListRead(m: seq<Member>, port: Int32)
    ensures var l := ListFrom(Obj(m), port);
      && ReadInt(Find(m, "msg_type"), l.msgType, -1) && ReadInt(Find(m, "operation"), l.operation, 10)
      && ReadInt(Find(m, "err_code"), l.errCode, 100)
      && ReadInt(Find(m, "num_records"), l.numRecords, 10) && ReadInt(Find(m, "start_record"), l.startRecord, 0)
      && l.port == port && l.scenes == ScenesFrom(ItemsOf(Find(m, "scenes")))
  {
    hide Find, ReadInt, TextOr, IntOr, ScenesFrom;
    IntIsRead(m, "msg_type", -1);
    IntIsRead(m, "operation", 10);
    IntIsRead(m, "err_code", 100);
    IntIsRead(m, "num_records", 10);
    IntIsRead(m, "start_record", 0);
  }

  lemma ListTextsRead(m: seq<Member>, port: Int32)
    ensures var l := ListFrom(Obj(m), port);
      && ReadText(Find(m, "err_msg"), l.errMsg, "") && ReadText(Find(m, "transaction_id"), l.transactionId, "")
      && ReadText(Find(m, "decryption_password"), l.decPassword, "")
      && ReadText(Find(m, "decryption_salt"), l.decSalt, "") && ReadText(Find(m, "decryption_key"), l.decKey, "")
      && ReadText(Find(m, "decryption_iv"), l.decIv, "") && ReadText(Find(m, "event_destination_host"), l.host, "")
      && l.encPassword == "" && l.encIv == ""
  {
    hide Find, ReadText, TextOr, IntOr, ScenesFrom;
    TextIsRead(m, "err_msg", "");
    TextIsRead(m, "transaction_id", "");
    TextIsRead(m, "decryption_password", "");
    TextIsRead(m, "decryption_salt", "");
    TextIsRead(m, "decryption_key", "");
    TextIsRead(m, "decryption_iv", "");
    TextIsRead(m, "event_destination_host", "");
  }

  /** A list that is read from nothing, from an object without members or from no object, is new. */
  lemma NewIsEmptyRead(port: Int32)
    ensures NewList(port) == ListFrom(Obj([]), port)
    ensures NEW_SCENE == SceneFrom(Obj([]))
  {
  }

  lemma EncryptionRead(m: seq<Member>, port: Int32)
    ensures var l := ListFrom(Obj(m), port);
      var (password, key) := (Find(m, "encryption_password"), Find(m, "encryption_key"));
      var (iv, salt) := (Find(m, "encryption_iv"), Find(m, "encryption_salt"));
      && (if key.Some? && key.value.Str? then l.encKey == key.value.s else ReadText(password, l.encKey, ""))
      && (if iv.Some? && iv.value.Str? then l.encSalt == iv.value.s else ReadText(salt, l.encSalt, ""))
  {
    hide Find, IntOr, ScenesFrom;
  }

  // ---------------------------------------------------------------- printing

  /** Each field of a scene under its name; empty texts and amounts at or below -9999 are left out. */
  lemma ScenePrinted(s: Scene)
    ensures var m := MembersOf(SceneTree(s));
      && Find(m, "key") == (if s.key == "" then None else Some(Str(s.key)))
      && Find(m, "name") == (if s.name == "" then None else Some(Str(s.name)))
      && Find(m, "description") == (if s.description == "" then None else Some(Str(s.description)))
      && Find(m, "user") == (if s.user == "" then None else Some(Str(s.user)))
      && Find(m, "thumbnail") == (if s.thumbnail == "" then None else Some(Str(s.thumbnail)))
      && Find(m, "region") == (if s.region == "" then None else Some(Str(s.region)))
      && Find(m, "private") == None
  {
    hide Find, Keep, TransformTree, DeviceTrees, Texts, Above;
    SceneFind(s, 0);
    SceneFind(s, 1);
    SceneFind(s, 2);
    SceneFind(s, 3);
    SceneFind(s, 4);
    SceneFind(s, 5);
    SceneNamed(s);
    NotPrivate();
    FindOther(SceneFields(s), "private");
  }

  lemma SceneValuesPrinted(s: Scene)
    ensures var m := MembersOf(SceneTree(s));
      && Find(m, "latitude") == (if s.latitude > -9999.0 then Some(Real(s.latitude)) else None)
      && Find(m, "longitude") == (if s.longitude > -9999.0 then Some(Real(s.longitude)) else None)
      && Find(m, "distance") == (if s.distance > -9999.0 then Some(Real(s.distance)) else None)
      && Find(m, "active") == Some(Bool(s.active)) && Find(m, "public") == Some(Bool(s.isPublic))
      && Find(m, "assets") == Some(Arr(Texts(s.assets)))
      && Find(m, "tags") == Some(Arr(Texts(s.tags)))
      && Find(m, "transform") == TransformTree(s.transform)
      && Find(m, "devices") == Some(Arr(DeviceTrees(s.devices)))
  {
    hide Find, Keep, TransformTree, DeviceTrees, Text, Texts;
    SceneFind(s, 6);
    SceneFind(s, 7);
    SceneFind(s, 8);
    SceneFind(s, 9);
    SceneFind(s, 10);
    SceneFind(s, 11);
    SceneFind(s, 12);
    SceneFind(s, 13);
    SceneFind(s, 14);
  }

  lemma TextsPrinted(ss: seq<string>)
    ensures |Texts(ss)| == |ss| && forall i :: 0 <= i < |ss| ==> Texts(ss)[i] == Str(ss[i])
  {
  }

  /** A negative port is printed modulo 2^32. */
  lemma DevicePrinted(d: Device)
    ensures var m := MembersOf(DeviceTree(d));
      && Find(m, "key") == (if d.key == "" then None else Some(Str(d.key)))
      && Find(m, "connection_string") == (if d.connection == "" then None else Some(Str(d.connection)))
      && Find(m, "hostname") == (if d.host == "" then None else Some(Str(d.host)))
      && Find(m, "port") ==
           (if d.port >= 999999 then None else Some(Num(if d.port < 0 then d.port + 4294967296 else d.port)))
      && Find(m, "transform") == TransformTree(d.transform)
  {
    hide Find, Keep, TransformTree;
    var fs := DeviceFields(d);
    DeviceNamed(d);
    FindField(fs, DEVICE_NAMES, 0);
    FindField(fs, DEVICE_NAMES, 1);
    FindField(fs, DEVICE_NAMES, 2);
    FindField(fs, DEVICE_NAMES, 3);
    FindField(fs, DEVICE_NAMES, 4);
  }

  lemma ListPrintedTexts(l: SceneList)
    requires Countable(l)
    ensures var m := MembersOf(TreeOf(l));
      && Find(m, "err_msg") == Text(l.errMsg) && Find(m, "transaction_id") == Text(l.transactionId)
      && Find(m, "encryption_password") == Text(l.encPassword) && Find(m, "encryption_salt") == Text(l.encSalt)
      && Find(m, "encryption_key") == Text(l.encKey) && Find(m, "encryption_iv") == Text(l.encIv)
      && Find(m, "decryption_password") == Text(l.decPassword) && Find(m, "decryption_salt") == Text(l.decSalt)
      && Find(m, "decryption_key") == Text(l.decKey) && Find(m, "decryption_iv") == Text(l.decIv)
      && Find(m, "event_destination_host") == Text(l.host)
  {
    hide Find, Keep, SceneTrees, Uint, Returned, ReturnedScenes, Text;
    ListFind(l, 2);
    ListFind(l, 3);
    ListFind(l, 4);
    ListFind(l, 5);
    ListFind(l, 6);
    ListFind(l, 7);
    ListFind(l, 8);
    ListFind(l, 9);
    ListFind(l, 10);
    ListFind(l, 11);
    ListFind(l, 12);
  }

  /** The numbers of a list; num_records is the number of scenes that are printed, and those are the
      first of the list. */
  lemma ListPrintedNumbers(l: SceneList)
    requires Countable(l) && l.numRecords >= -1
    ensures var m := MembersOf(TreeOf(l));
      var n := if l.numRecords == -1 || l.numRecords > |l.scenes| then |l.scenes| else l.numRecords;
      && Find(m, "msg_type") == Some(Num(if l.msgType < 0 then l.msgType + 4294967296 else l.msgType))
      && Find(m, "err_code") == Some(Num(if l.errCode < 0 then l.errCode + 4294967296 else l.errCode))
      && Find(m, "event_destination_port") == (if l.port > 0 then Some(Num(l.port)) else None)
      && Find(m, "num_records") == Some(Num(n))
      && Find(m, "start_record") ==
           Some(Num(if l.startRecord < 0 then l.startRecord + 4294967296 else l.startRecord))
      && Find(m, "scenes") == Some(Arr(SceneTrees(l.scenes[..n])))
      && Find(m, "operation") == None
  {
    hide Find, Keep, SceneTrees, Text;
    ListFind(l, 0);
    ListFind(l, 1);
    ListFind(l, 13);
    ListFind(l, 14);
    ListFind(l, 15);
    ListFind(l, 16);
    ListNamed(l);
    NotOperation();
    FindOther(ListFields(l), "operation");
    assert l.scenes[..|l.scenes|] == l.scenes;
  }
}
