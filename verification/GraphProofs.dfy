/** What each query of the registration protocol does to a well-formed graph. */
module GraphProofs {
  import opened Poses
  import opened SceneGraph

  lemma {:induction false} MatchesExactly(scenes: seq<Key>, key: Key)
    ensures forall i: nat :: i in Matches(scenes, key) <==> i < |scenes| && scenes[i] == key
    ensures Matches(scenes, key) == [] <==> key !in scenes
  {
    if scenes != [] {
      MatchesExactly(scenes[..|scenes| - 1], key);
      assert scenes == scenes[..|scenes| - 1] + [scenes[|scenes| - 1]];
    }
  }

  /** With unique keys a pattern on the key matches at most one scene. */
  lemma {:induction false} MatchesOne(scenes: seq<Key>, key: Key, i: nat)
    requires forall a, b :: 0 <= a < b < |scenes| ==> scenes[a] != scenes[b]
    requires i < |scenes| && scenes[i] == key
    ensures Matches(scenes, key) == [i]
  {
    var n := |scenes| - 1;
    MatchesExactly(scenes[..n], key);
    if i < n {
      MatchesOne(scenes[..n], key, i);
    }
  }

  lemma SceneExistsIs(g: Graph, key: Key)
    ensures SceneExists(g, key) <==> key in g.scenes
  {
    MatchesExactly(g.scenes, key);
  }

  lemma {:induction false} DeviceKeysExactly(g: Graph, regs: seq<Reg>, scene: Key, dev: Key)
    ensures dev in DeviceKeysOf(g, regs, scene) <==> exists r <- regs :: IsRegOf(g, r, scene, dev)
  {
    if regs != [] {
      var n := |regs| - 1;
      DeviceKeysExactly(g, regs[..n], scene, dev);
      assert regs == regs[..n] + [regs[n]];
      assert dev in DeviceKeysOf(g, regs, scene) <==>
             dev in DeviceKeysOf(g, regs[..n], scene) || IsRegOf(g, regs[n], scene, dev);
    }
  }

  lemma {:induction false} RowsExactly(g: Graph, regs: seq<Reg>, dev: Key, scene: Key, pose: Pose)
    ensures Row(scene, pose) in RowsOf(g, regs, dev) <==>
            exists r <- regs :: IsRegOf(g, r, scene, dev) && r.pose == pose
  {
    if regs != [] {
      var n := |regs| - 1;
      RowsExactly(g, regs[..n], dev, scene, pose);
      assert regs == regs[..n] + [regs[n]];
    }
  }

  // ---------------------------------------------------------------- creating and registering

  lemma CreateKeepsOk(g: Graph, key: Key)
    requires Ok(g) && key !in g.scenes
    ensures Ok(CreateScene(g, key))
    ensures forall s, d, p :: Registered(CreateScene(g, key), s, d, p) <==> Registered(g, s, d, p)
  {
    var h := CreateScene(g, key);
    assert forall i :: 0 <= i < |g.scenes| ==> h.scenes[i] == g.scenes[i];
    assert forall r, s, d :: r in g.regs ==> IsRegOf(h, r, s, d) == IsRegOf(g, r, s, d);
  }

  ghost predicate HasReg(g: Graph, s: Key, d: Key) {
    exists r <- g.regs :: IsRegOf(g, r, s, d)
  }

  /** A new device node with an edge from the scene at index i. */
  function WithEdge(g: Graph, i: nat, d: Device, pose: Pose): Graph {
    g.(devices := g.devices[g.next := d], regs := g.regs + [Reg(i, g.next, pose)], next := g.next + 1)
  }

  lemma RegisterIsOneEdge(g: Graph, i: nat, d: Device, pose: Pose)
    requires KeysUnique(g) && i < |g.scenes|
    ensures RegisterDevice(g, g.scenes[i], d, pose) == WithEdge(g, i, d, pose)
  {
    MatchesOne(g.scenes, g.scenes[i], i);
    assert RegisterAt(g, [i], d, pose) == RegisterAt(WithEdge(g, i, d, pose), [i][1..], d, pose);
  }

  lemma WithEdgeKeepsEdges(g: Graph, i: nat, d: Device, pose: Pose)
    requires EdgesOk(g) && i < |g.scenes|
    ensures EdgesOk(WithEdge(g, i, d, pose))
  {
  }

  lemma WithEdgeKeepsOneEdge(g: Graph, i: nat, d: Device, pose: Pose)
    requires EdgesOk(g) && OneEdgePerDevice(g)
    ensures OneEdgePerDevice(WithEdge(g, i, d, pose))
  {
    var n := |g.regs|;
    var h := WithEdge(g, i, d, pose);
    assert h.regs[n].dev == g.next && h.regs[..n] == g.regs;
    forall a, b | 0 <= a < b < |h.regs|
      ensures h.regs[a].dev != h.regs[b].dev
    {
      assert h.regs[a] == g.regs[a] && g.regs[a] in g.regs;
      assert b < n ==> h.regs[b] == g.regs[b];
    }
    forall e <- h.devices
      ensures exists k :: 0 <= k < |h.regs| && h.regs[k].dev == e
    {
      if e != g.next {
        var k :| 0 <= k < n && g.regs[k].dev == e;
        assert h.regs[k].dev == e;
      }
    }
  }

  lemma WithEdgeKeepsOneReg(g: Graph, i: nat, d: Device, pose: Pose)
    requires EdgesOk(g) && OneRegPerKey(g) && i < |g.scenes| && !HasReg(g, g.scenes[i], d.key)
    requires EdgesOk(WithEdge(g, i, d, pose))
    ensures OneRegPerKey(WithEdge(g, i, d, pose))
  {
    hide HasReg;
    var h := WithEdge(g, i, d, pose);
    forall a, b | 0 <= a < b < |h.regs| && h.regs[a].scene == h.regs[b].scene
      ensures h.devices[h.regs[a].dev].key != h.devices[h.regs[b].dev].key
    {
      assert h.regs[a] == g.regs[a] && g.regs[a] in g.regs;
      if b < |g.regs| {
        assert h.regs[b] == g.regs[b] && g.regs[b] in g.regs;
      } else {
        RegisteredElsewhere(g, i, d.key, g.regs[a]);
      }
    }
  }

  lemma RegisterKeepsOk(g: Graph, i: nat, d: Device, pose: Pose)
    requires Ok(g) && i < |g.scenes| && !HasReg(g, g.scenes[i], d.key)
    ensures Ok(RegisterDevice(g, g.scenes[i], d, pose))
  {
    hide RegisterDevice, HasReg, EdgesOk, OneEdgePerDevice, OneRegPerKey;
    RegisterIsOneEdge(g, i, d, pose);
    WithEdgeKeepsEdges(g, i, d, pose);
    WithEdgeKeepsOneEdge(g, i, d, pose);
    WithEdgeKeepsOneReg(g, i, d, pose);
  }

  lemma RegisteredElsewhere(g: Graph, i: nat, dev: Key, r: Reg)
    requires EdgesOk(g) && i < |g.scenes| && !HasReg(g, g.scenes[i], dev) && r in g.regs && r.scene == i
    ensures g.devices[r.dev].key != dev
  {
    assert !IsRegOf(g, r, g.scenes[i], dev);
  }

  lemma RegisterAddsOne(g: Graph, i: nat, d: Device, pose: Pose)
    requires Ok(g) && i < |g.scenes|
    ensures var h := RegisterDevice(g, g.scenes[i], d, pose);
            forall s, e, p :: Registered(h, s, e, p) <==>
              Registered(g, s, e, p) || (s == g.scenes[i] && e == d.key && p == pose)
  {
    RegisterIsOneEdge(g, i, d, pose);
    hide RegisterDevice;
    var h := RegisterDevice(g, g.scenes[i], d, pose);
    assert forall r, s, e :: r in g.regs ==> IsRegOf(h, r, s, e) == IsRegOf(g, r, s, e);
    var last := Reg(i, g.next, pose);
    assert last in h.regs && IsRegOf(h, last, g.scenes[i], d.key);
  }

  // ---------------------------------------------------------------- removing

  lemma {:induction false} WithoutExactly(regs: seq<Reg>, doomed: set<nat>)
    ensures forall r :: r in Without(regs, doomed) <==> r in regs && r.dev !in doomed
    ensures |Without(regs, doomed)| <= |regs|
  {
    if regs != [] {
      WithoutExactly(regs[..|regs| - 1], doomed);
      assert regs == regs[..|regs| - 1] + [regs[|regs| - 1]];
    }
  }

  /** Two different edges that are left were two different edges before. */
  lemma {:induction false} WithoutKeepsApart(regs: seq<Reg>, doomed: set<nat>, i: nat, j: nat) returns (a: nat, b: nat)
    requires i < j < |Without(regs, doomed)|
    ensures a < b < |regs| && regs[a] == Without(regs, doomed)[i] && regs[b] == Without(regs, doomed)[j]
  {
    var n := |regs| - 1;
    var front := Without(regs[..n], doomed);
    if j < |front| {
      a, b := WithoutKeepsApart(regs[..n], doomed, i, j);
    } else {
      WithoutExactly(regs[..n], doomed);
      assert front[i] in regs[..n];
      a :| 0 <= a < n && regs[a] == front[i];
      b := n;
    }
  }

  /** The device nodes that a removal deletes. */
  function Doomed(g: Graph, dev: Key, scene: Key): set<nat> {
    set r <- g.regs | IsRegOf(g, r, scene, dev) :: r.dev
  }

  /** Deleting nodes with all their edges. */
  function WithoutNodes(g: Graph, doomed: set<nat>): Graph {
    g.(devices := g.devices - doomed, regs := Without(g.regs, doomed))
  }

  lemma WithoutKeepsEdges(g: Graph, doomed: set<nat>)
    requires EdgesOk(g)
    ensures EdgesOk(WithoutNodes(g, doomed))
  {
    WithoutExactly(g.regs, doomed);
  }

  lemma WithoutKeepsOneEdge(g: Graph, doomed: set<nat>)
    requires OneEdgePerDevice(g)
    ensures OneEdgePerDevice(WithoutNodes(g, doomed))
  {
    hide Without;
    var left := Without(g.regs, doomed);
    WithoutExactly(g.regs, doomed);
    forall i, j | 0 <= i < j < |left|
      ensures left[i].dev != left[j].dev
    {
      var a, b := WithoutKeepsApart(g.regs, doomed, i, j);
    }
    forall d <- g.devices | d !in doomed
      ensures exists i :: 0 <= i < |left| && left[i].dev == d
    {
      var i :| 0 <= i < |g.regs| && g.regs[i].dev == d;
      assert g.regs[i] in left;
    }
  }

  lemma WithoutKeepsOneReg(g: Graph, doomed: set<nat>)
    requires EdgesOk(g) && OneRegPerKey(g) && EdgesOk(WithoutNodes(g, doomed))
    ensures OneRegPerKey(WithoutNodes(g, doomed))
  {
    hide Without;
    var h := WithoutNodes(g, doomed);
    forall i, j | 0 <= i < j < |h.regs| && h.regs[i].scene == h.regs[j].scene
      ensures h.devices[h.regs[i].dev].key != h.devices[h.regs[j].dev].key
    {
      var a, b := WithoutKeepsApart(g.regs, doomed, i, j);
      assert h.regs[i] in h.regs && h.regs[j] in h.regs;
    }
  }

  lemma RemoveKeepsOk(g: Graph, dev: Key, scene: Key)
    requires Ok(g)
    ensures Ok(RemoveDevice(g, dev, scene))
  {
    hide EdgesOk, OneEdgePerDevice, OneRegPerKey, Without;
    var doomed := Doomed(g, dev, scene);
    WithoutKeepsEdges(g, doomed);
    WithoutKeepsOneEdge(g, doomed);
    WithoutKeepsOneReg(g, doomed);
  }

  /** An edge is doomed exactly when it is the registration itself: its device node has no other edge. */
  lemma DoomedAreMatches(g: Graph, dev: Key, scene: Key)
    requires Ok(g)
    ensures forall r <- g.regs :: r.dev in Doomed(g, dev, scene) <==> IsRegOf(g, r, scene, dev)
  {
    hide IsRegOf, EdgesOk, KeysUnique, OneRegPerKey;
    forall r <- g.regs | r.dev in Doomed(g, dev, scene)
      ensures IsRegOf(g, r, scene, dev)
    {
      var q :| q in g.regs && IsRegOf(g, q, scene, dev) && q.dev == r.dev;
      OneEdge(g, r, q);
    }
  }

  lemma OneEdge(g: Graph, r: Reg, q: Reg)
    requires OneEdgePerDevice(g) && r in g.regs && q in g.regs && r.dev == q.dev
    ensures r == q
  {
    var i :| 0 <= i < |g.regs| && g.regs[i] == r;
    var j :| 0 <= j < |g.regs| && g.regs[j] == q;
    assert i == j;
  }

  lemma RemoveTakesOne(g: Graph, dev: Key, scene: Key)
    requires Ok(g)
    ensures var h := RemoveDevice(g, dev, scene);
            forall s, e, p :: Registered(h, s, e, p) <==> Registered(g, s, e, p) && !(s == scene && e == dev)
  {
    hide Ok, Without, Registered;
    var doomed := Doomed(g, dev, scene);
    var h := RemoveDevice(g, dev, scene);
    WithoutExactly(g.regs, doomed);
    DoomedAreMatches(g, dev, scene);
    forall s, e, p
      ensures Registered(h, s, e, p) <==> Registered(g, s, e, p) && !(s == scene && e == dev)
    {
      RemovedFrom(g, h, doomed, dev, scene, s, e, p);
    }
  }

  lemma RemovedFrom(g: Graph, h: Graph, doomed: set<nat>, dev: Key, scene: Key, s: Key, e: Key, p: Pose)
    requires h.scenes == g.scenes && h.devices == g.devices - doomed
    requires forall r :: r in h.regs <==> r in g.regs && r.dev !in doomed
    requires forall r <- g.regs :: r.dev in doomed <==> IsRegOf(g, r, scene, dev)
    ensures Registered(h, s, e, p) <==> Registered(g, s, e, p) && !(s == scene && e == dev)
  {
    assert forall r <- h.regs :: IsRegOf(h, r, s, e) == IsRegOf(g, r, s, e);
  }

  lemma {:induction false} WithoutCount(regs: seq<Reg>, doomed: set<nat>)
    requires forall i, j :: 0 <= i < j < |regs| && regs[i].dev in doomed ==> regs[j].dev !in doomed
    ensures |Without(regs, doomed)| == |regs| - if exists r <- regs :: r.dev in doomed then 1 else 0
  {
    if regs != [] {
      var n := |regs| - 1;
      WithoutCount(regs[..n], doomed);
      assert regs == regs[..n] + [regs[n]];
    }
  }

  lemma RemoveCount(g: Graph, dev: Key, scene: Key)
    requires Ok(g)
    ensures |RemoveDevice(g, dev, scene).regs| == |g.regs| - if HasReg(g, scene, dev) then 1 else 0
  {
    var doomed := Doomed(g, dev, scene);
    DoomedAreMatches(g, dev, scene);
    forall i, j | 0 <= i < j < |g.regs| && g.regs[i].dev in doomed
      ensures g.regs[j].dev !in doomed
    {
      assert IsRegOf(g, g.regs[i], scene, dev) && !IsRegOf(g, g.regs[j], scene, dev);
    }
    WithoutCount(g.regs, doomed);
  }

  // ---------------------------------------------------------------- updating

  lemma UpdateKeepsEnds(g: Graph, dev: Key, scene: Key, pose: Pose)
    ensures SameEnds(g, UpdateRegistration(g, dev, scene, pose))
  {
    hide IsRegOf;
  }

  /** The edges of h lead from where those of g do to where they do. */
  ghost predicate SameEnds(g: Graph, h: Graph) {
    && h == g.(regs := h.regs) && |h.regs| == |g.regs|
    && forall i :: 0 <= i < |g.regs| ==> h.regs[i].scene == g.regs[i].scene && h.regs[i].dev == g.regs[i].dev
  }

  lemma SameEndsKeepEdges(g: Graph, h: Graph)
    requires EdgesOk(g) && SameEnds(g, h)
    ensures EdgesOk(h)
  {
    forall r <- h.regs
      ensures r.scene < |h.scenes| && r.dev in h.devices
    {
      var i :| 0 <= i < |h.regs| && h.regs[i] == r;
      assert g.regs[i] in g.regs;
    }
  }

  lemma SameEndsKeepOneEdge(g: Graph, h: Graph)
    requires OneEdgePerDevice(g) && SameEnds(g, h)
    ensures OneEdgePerDevice(h)
  {
    forall d <- h.devices
      ensures exists i :: 0 <= i < |h.regs| && h.regs[i].dev == d
    {
      var i :| 0 <= i < |g.regs| && g.regs[i].dev == d;
      assert h.regs[i].dev == d;
    }
  }

  lemma SameEndsKeepOneReg(g: Graph, h: Graph)
    requires EdgesOk(g) && EdgesOk(h) && OneRegPerKey(g) && SameEnds(g, h)
    ensures OneRegPerKey(h)
  {
    forall i, j | 0 <= i < j < |h.regs| && h.regs[i].scene == h.regs[j].scene
      ensures h.devices[h.regs[i].dev].key != h.devices[h.regs[j].dev].key
    {
      assert g.regs[i].scene == g.regs[j].scene;
    }
  }

  lemma UpdateKeepsOk(g: Graph, dev: Key, scene: Key, pose: Pose)
    requires Ok(g)
    ensures Ok(UpdateRegistration(g, dev, scene, pose))
  {
    hide EdgesOk, OneEdgePerDevice, OneRegPerKey, UpdateRegistration;
    var h := UpdateRegistration(g, dev, scene, pose);
    UpdateKeepsEnds(g, dev, scene, pose);
    SameEndsKeepEdges(g, h);
    SameEndsKeepOneEdge(g, h);
    SameEndsKeepOneReg(g, h);
  }

  lemma UpdatedReg(g: Graph, dev: Key, scene: Key, pose: Pose, s: Key, e: Key, i: nat)
    requires i < |g.regs|
    ensures var h := UpdateRegistration(g, dev, scene, pose);
      && (IsRegOf(h, h.regs[i], s, e) <==> IsRegOf(g, g.regs[i], s, e))
      && (IsRegOf(g, g.regs[i], s, e) ==>
            h.regs[i].pose == if s == scene && e == dev then pose else g.regs[i].pose)
  {
  }

  lemma UpdateSetsOne(g: Graph, dev: Key, scene: Key, pose: Pose)
    ensures var h := UpdateRegistration(g, dev, scene, pose);
            forall s, e, p :: Registered(h, s, e, p) <==>
              if s == scene && e == dev then HasReg(g, s, e) && p == pose else Registered(g, s, e, p)
  {
    var h := UpdateRegistration(g, dev, scene, pose);
    forall s, e, p
      ensures Registered(h, s, e, p) <==>
              if s == scene && e == dev then HasReg(g, s, e) && p == pose else Registered(g, s, e, p)
    {
      UpdateSets(g, dev, scene, pose, s, e, p);
    }
  }

  lemma UpdateSets(g: Graph, dev: Key, scene: Key, pose: Pose, s: Key, e: Key, p: Pose)
    ensures Registered(UpdateRegistration(g, dev, scene, pose), s, e, p) <==>
            if s == scene && e == dev then HasReg(g, s, e) && p == pose else Registered(g, s, e, p)
  {
    var h := UpdateRegistration(g, dev, scene, pose);
    assert |h.regs| == |g.regs|;
    hide UpdateRegistration, IsRegOf;
    if Registered(h, s, e, p) {
      var i :| 0 <= i < |h.regs| && IsRegOf(h, h.regs[i], s, e) && h.regs[i].pose == p;
      UpdatedReg(g, dev, scene, pose, s, e, i);
      assert g.regs[i] in g.regs;
    }
    if r :| r in g.regs && IsRegOf(g, r, s, e) && (r.pose == p || (s == scene && e == dev && p == pose)) {
      var i :| 0 <= i < |g.regs| && g.regs[i] == r;
      UpdatedReg(g, dev, scene, pose, s, e, i);
      assert h.regs[i] in h.regs;
    }
  }
}
