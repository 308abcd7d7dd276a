/** When a printed scene list comes back whole, and when printing it again gives the same message. */
module SceneListTheorems {
  import opened Json
  import opened SceneLists
  import opened SceneListProofs

  // ---------------------------------------------------------------- the list itself

  predicate DeviceKept(d: Device) {
    d.key != "" && 0 <= d.port <= NO_PORT
  }

  predicate SceneKept(s: Scene) {
    && s.user == "" && s.latitude >= UNSET && s.longitude >= UNSET && s.distance > UNSET
    && forall d <- s.devices :: DeviceKept(d)
  }

  predicate ListKept(l: SceneList, port: Int32) {
    && l.msgType >= -1 && l.operation == APPEND && l.errCode >= 0 && l.startRecord >= 0
    && l.numRecords == |l.scenes| && l.encPassword == "" && l.encIv == "" && l.port == port
    && forall s <- l.scenes :: SceneKept(s)
  }

  lemma {:induction false} DevicesBackIs(ds: seq<Device>)
    ensures |DevicesBack(ds)| <= |ds|
    ensures |DevicesBack(ds)| == |ds| <==> forall d <- ds :: d.key != ""
    ensures DevicesBack(ds) == ds <==> forall d <- ds :: DeviceKept(d)
  {
    if ds != [] {
      var n := |ds| - 1;
      var front, back := DevicesBack(ds[..n]), DevicesBack(ds);
      DevicesBackIs(ds[..n]);
      assert ds == ds[..n] + [ds[n]] && ds[n] in ds;
      if ds[n].key != "" {
        assert back == ds <==> front == ds[..n] && DeviceBack(ds[n]) == ds[n] by {
          LastOne(front, DeviceBack(ds[n]), ds[..n], ds[n]);
        }
      }
    }
  }

  lemma LastOne<T>(a: seq<T>, x: T, b: seq<T>, y: T)
    ensures a + [x] == b + [y] <==> a == b && x == y
  {
    if a + [x] == b + [y] {
      assert (a + [x])[|a|] == x && (b + [y])[|b|] == y;
      assert (a + [x])[..|a|] == a && (b + [y])[..|b|] == b;
    }
  }

  lemma SceneBackIs(s: Scene)
    ensures SceneBack(s) == s <==> SceneKept(s)
  {
    DevicesBackIs(s.devices);
    hide DevicesBack, DeviceKept;
  }

  lemma {:induction false} ScenesBackIs(ss: seq<Scene>)
    ensures |ScenesBack(ss)| == |ss|
    ensures forall i :: 0 <= i < |ss| ==> ScenesBack(ss)[i] == SceneBack(ss[i])
  {
    hide SceneBack;
    if ss != [] {
      ScenesBackIs(ss[..|ss| - 1]);
    }
  }

  lemma ScenesBackWhole(ss: seq<Scene>)
    ensures ScenesBack(ss) == ss <==> forall s <- ss :: SceneKept(s)
  {
    ScenesBackIs(ss);
    forall i | 0 <= i < |ss|
      ensures ScenesBack(ss)[i] == ss[i] <==> SceneKept(ss[i])
    {
      SceneBackIs(ss[i]);
    }
    hide SceneKept, ScenesBack, SceneBack;
    if forall s <- ss :: SceneKept(s) {
      assert forall i :: 0 <= i < |ss| ==> SceneKept(ss[i]);
    }
  }

  /** Parsing the printed message gives back exactly the list, exactly when the list says what a
      parsed list can: no user, no encryption password or iv, the default operation, counts and codes
      in range, every device with a key and a port, and as many records asked for as there are. */
  lemma ComesBackExactly(l: SceneList, port: Int32)
    requires Countable(l)
    ensures ListFrom(TreeOf(l), port) == l <==> ListKept(l, port)
  {
    hide ListFrom, TreeOf, ScenesBack, SceneKept;
    ListRoundTrip(l, port);
    ScenesBackWhole(ReturnedScenes(l));
    ScenesBackIs(ReturnedScenes(l));
    if Returned(l) == |l.scenes| {
      assert ReturnedScenes(l) == l.scenes;
    }
  }

  /** The scenes that come back: the first min(num_scenes, num_records), all of them for -1. */
  lemma FirstScenesComeBack(l: SceneList, port: Int32)
    requires Countable(l) && l.numRecords >= -1
    ensures var n := if l.numRecords == -1 || l.numRecords > |l.scenes| then |l.scenes| else l.numRecords;
      var back := ListFrom(TreeOf(l), port).scenes;
      && |back| == n
      && forall i :: 0 <= i < n ==>
           var s := l.scenes[i];
           && back[i].assets == s.assets && back[i].tags == s.tags && back[i].transform == s.transform
           && back[i].devices == DevicesBack(s.devices)
           && (SceneKept(s) ==> back[i] == s)
  {
    ListRoundTrip(l, port);
    hide ListFrom, TreeOf, ScenesBack, SceneKept, SceneBack, Returned;
    var rs := ReturnedScenes(l);
    ScenesBackIs(rs);
    ReturnedAre(l);
    forall i | 0 <= i < |rs|
      ensures var s, b := l.scenes[i], ScenesBack(rs)[i];
        && b.assets == s.assets && b.tags == s.tags && b.transform == s.transform
        && b.devices == DevicesBack(s.devices) && (SceneKept(s) ==> b == s)
    {
      SceneBackKeeps(l.scenes[i]);
    }
  }

  lemma ReturnedAre(l: SceneList)
    requires Countable(l) && l.numRecords >= -1
    ensures var n := if l.numRecords == -1 || l.numRecords > |l.scenes| then |l.scenes| else l.numRecords;
      n <= |l.scenes| && ReturnedScenes(l) == l.scenes[..n]
  {
  }

  lemma SceneBackKeeps(s: Scene)
    ensures var b := SceneBack(s);
      && b.assets == s.assets && b.tags == s.tags && b.transform == s.transform
      && b.devices == DevicesBack(s.devices) && (SceneKept(s) ==> b == s)
  {
    SceneBackIs(s);
    hide SceneKept, DevicesBack;
  }

  // ---------------------------------------------------------------- printing again

  predicate DevicePrinted(d: Device) {
    d.key != "" && d.port >= 0
  }

  predicate ScenePrinted(s: Scene) {
    s.user == "" && s.distance > UNSET && forall d <- s.devices :: DevicePrinted(d)
  }

  function PortPrinted(port: Int32): Int32 {
    if port > 0 then port else 0
  }

  predicate ListPrinted(l: SceneList, port: Int32)
    requires Countable(l)
  {
    && l.msgType >= -1 && l.errCode >= 0 && l.startRecord >= 0 && l.numRecords >= -1
    && l.encPassword == "" && l.encIv == "" && PortPrinted(l.port) == PortPrinted(port)
    && forall s <- ReturnedScenes(l) :: ScenePrinted(s)
  }

  lemma DeviceTreeBack(d: Device)
    ensures DeviceTree(DeviceBack(d)) == DeviceTree(d) <==> d.port >= 0
  {
    var f, g := DeviceFields(DeviceBack(d)), DeviceFields(d);
    DeviceNamed(d);
    DeviceNamed(DeviceBack(d));
    hide Keep, Named, TransformTree;
    FieldsDetermined(f, g, DEVICE_NAMES);
    assert forall i :: 0 <= i < 5 && i != 3 ==> f[i].value == g[i].value;
    assert f[3].value == g[3].value <==> d.port >= 0;
  }

  lemma {:induction false} DeviceTreesLength(ds: seq<Device>)
    ensures |DeviceTrees(ds)| == |ds|
  {
    if ds != [] {
      DeviceTreesLength(ds[..|ds| - 1]);
    }
  }

  lemma {:induction false} DeviceTreesBack(ds: seq<Device>)
    ensures DeviceTrees(DevicesBack(ds)) == DeviceTrees(ds) <==> forall d <- ds :: DevicePrinted(d)
  {
    DeviceTreesLength(ds);
    DeviceTreesLength(DevicesBack(ds));
    DevicesBackIs(ds);
    hide DeviceTree, DeviceBack;
    if ds != [] {
      var n := |ds| - 1;
      DeviceTreesBack(ds[..n]);
      DeviceTreeBack(ds[n]);
      assert ds == ds[..n] + [ds[n]] && ds[n] in ds;
      if ds[n].key != "" {
        var back := DevicesBack(ds);
        assert back[..|back| - 1] == DevicesBack(ds[..n]);
        LastOne(DeviceTrees(DevicesBack(ds[..n])), DeviceTree(DeviceBack(ds[n])),
                DeviceTrees(ds[..n]), DeviceTree(ds[n]));
      }
    }
  }

  lemma SceneTreeBack(s: Scene)
    ensures SceneTree(SceneBack(s)) == SceneTree(s) <==> ScenePrinted(s)
  {
    var f, g := SceneFields(SceneBack(s)), SceneFields(s);
    SceneNamed(s);
    SceneNamed(SceneBack(s));
    DeviceTreesBack(s.devices);
    hide Keep, Named, TransformTree, Texts, DeviceTrees, DevicesBack, DevicePrinted;
    FieldsDetermined(f, g, SCENE_NAMES);
    assert forall i :: 0 <= i < 15 && i != 3 && i != 10 && i != 14 ==> f[i].value == g[i].value;
    assert f[3].value == g[3].value <==> s.user == "";
    assert f[10].value == g[10].value <==> s.distance > UNSET;
    assert f[14].value == g[14].value <==> forall d <- s.devices :: DevicePrinted(d);
  }

  lemma {:induction false} SceneTreesBack(ss: seq<Scene>)
    ensures SceneTrees(ScenesBack(ss)) == SceneTrees(ss) <==> forall s <- ss :: ScenePrinted(s)
  {
    hide SceneTree, SceneBack, ScenePrinted;
    if ss != [] {
      var n := |ss| - 1;
      SceneTreesBack(ss[..n]);
      SceneTreeBack(ss[n]);
      assert ss == ss[..n] + [ss[n]];
      var back := ScenesBack(ss);
      assert back[..|back| - 1] == ScenesBack(ss[..n]);
      LastOne(SceneTrees(ScenesBack(ss[..n])), SceneTree(SceneBack(ss[n])), SceneTrees(ss[..n]), SceneTree(ss[n]));
    }
  }

  lemma ReturnedBack(l: SceneList, port: Int32)
    requires Countable(l)
    ensures var b := ListBack(l, port);
      && Countable(b) && ReturnedScenes(b) == ScenesBack(ReturnedScenes(l))
      && (Uint(Returned(b)) == Uint(Returned(l)) <==> l.numRecords >= -1)
  {
    ScenesBackIs(ReturnedScenes(l));
    hide ScenesBack, SceneBack;
  }

  /** Printing the parsed list again gives the same message exactly when the list, as far as it is
      printed, holds nothing that parsing drops or replaces. */
  lemma PrintsTheSameAgain(l: SceneList, port: Int32)
    requires Countable(l)
    ensures Countable(ListFrom(TreeOf(l), port))
    ensures TreeOf(ListFrom(TreeOf(l), port)) == TreeOf(l) <==> ListPrinted(l, port)
  {
    ListRoundTrip(l, port);
    ReturnedBack(l, port);
    var b := ListBack(l, port);
    hide Keep, ListFrom, ListFields, ListBack, Returned, ReturnedScenes, ScenePrinted, PortPrinted;
    ListNamed(l);
    ListNamed(b);
    FieldsDetermined(ListFields(b), ListFields(l), LIST_NAMES);
    CountsPrinted(l, port);
    TextsPrinted(l, port);
    EncryptionPrinted(l, port);
    PortPrintedSame(l, port);
    ScenesPrinted(l, port);
    assert |LIST_NAMES| == 17;
  }

  /** The fields at position i are the same in the list and in what comes back of it. */
  ghost predicate SameField(l: SceneList, port: Int32, i: nat)
    requires Countable(l) && Countable(ListBack(l, port)) && i < 17
  {
    ListFields(ListBack(l, port))[i].value == ListFields(l)[i].value
  }

  lemma CountsPrinted(l: SceneList, port: Int32)
    requires Countable(l) && Countable(ListBack(l, port))
    ensures SameField(l, port, 0) <==> l.msgType >= -1
    ensures SameField(l, port, 1) <==> l.errCode >= 0
    ensures SameField(l, port, 14) <==> l.numRecords >= -1
    ensures SameField(l, port, 15) <==> l.startRecord >= 0
  {
    hide SceneTrees, ScenesBack, Returned, ReturnedScenes, Text;
    ReturnedBack(l, port);
  }

  lemma TextsPrinted(l: SceneList, port: Int32)
    requires Countable(l) && Countable(ListBack(l, port))
    ensures forall i :: (i == 2 || i == 3 || 8 <= i < 13) ==> SameField(l, port, i)
  {
    hide SceneTrees, ScenesBack, Returned, ReturnedScenes, Uint, IntBack, Text;
  }

  lemma EncryptionPrinted(l: SceneList, port: Int32)
    requires Countable(l) && Countable(ListBack(l, port))
    ensures SameField(l, port, 4) <==> l.encPassword == ""
    ensures SameField(l, port, 7) <==> l.encIv == ""
    ensures l.encPassword == "" ==> SameField(l, port, 6)
    ensures l.encIv == "" ==> SameField(l, port, 5)
  {
    hide SceneTrees, ScenesBack, Returned, ReturnedScenes, Uint, IntBack;
  }

  lemma PortPrintedSame(l: SceneList, port: Int32)
    requires Countable(l) && Countable(ListBack(l, port))
    ensures SameField(l, port, 13) <==> PortPrinted(l.port) == PortPrinted(port)
  {
    hide SceneTrees, ScenesBack, Returned, ReturnedScenes, Uint, IntBack, Text;
  }

  lemma ScenesPrinted(l: SceneList, port: Int32)
    requires Countable(l) && Countable(ListBack(l, port))
    ensures SameField(l, port, 16) <==> forall s <- ReturnedScenes(l) :: ScenePrinted(s)
  {
    ReturnedBack(l, port);
    SceneTreesBack(ReturnedScenes(l));
    hide SceneTrees, ScenesBack, Returned, ReturnedScenes, Uint, IntBack, Text, ScenePrinted, Above, Texts;
    hide SceneFields, DeviceFields, ListBack;
  }
}
