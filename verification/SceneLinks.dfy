/**
 The links between scenes that an alignment creates or corrects (process_UDUD_transformation), and
 what the transforms on them are.

 A created link carries no "key" property, although get_scene_link decides by one whether a link
 exists and which way it runs. `tagged` selects between the two: false is the code, true is its
 stated purpose, in which the property is written and is the key of the link's source.
 */
module SceneLinks {
  import opened Wrappers
  import opened Poses
  import opened SceneGraph
  import opened GraphProofs

  /** The transform from scene r to scene s, from a device's transforms in both. */
  function Toward(inR: Pose, inS: Pose): Pose {
    Compose(inS, Invert(inR))
  }

  /** One round of the loop, for another scene r the device is registered to. */
  function RelinkOne(g: Graph, r: Key, s: Key, p: Pose, tagged: bool): Graph {
    var found := GetSceneLink(g, r, s);
    if found == 0 then CreateSceneLink(g, r, s, p, tagged)
    else if found == 1 then UpdateSceneLink(g, r, s, p)
    else UpdateSceneLink(g, s, r, Invert(p))
  }

  function Relink(g: Graph, rows: seq<Row>, s: Key, inS: Pose, tagged: bool): Graph {
    if rows == [] then g
    else
      var n := |rows| - 1;
      var before := Relink(g, rows[..n], s, inS, tagged);
      if rows[n].scene == s then before
      else RelinkOne(before, rows[n].scene, s, Toward(rows[n].pose, inS), tagged)
  }

  // ---------------------------------------------------------------- what is known of links

  predicate Between(g: Graph, l: Link, r: Key, s: Key) {
    Joins(g, l, r, s) || Joins(g, l, s, r)
  }

  predicate SamePair(l: Link, m: Link) {
    (l.src == m.src && l.dst == m.dst) || (l.src == m.dst && l.dst == m.src)
  }

  ghost predicate OneLinkPerPair(links: seq<Link>) {
    forall i, j :: 0 <= i < j < |links| ==> !SamePair(links[i], links[j])
  }

  ghost predicate TagsOk(g: Graph, tagged: bool)
    requires EdgesOk(g)
  {
    forall l <- g.links :: l.tag == if tagged then Some(g.scenes[l.src]) else None
  }

  /** What keeps get_scene_link telling the truth. */
  ghost predicate LinksOk(g: Graph, tagged: bool) {
    EdgesOk(g) && KeysUnique(g) && TagsOk(g, tagged) && (tagged ==> OneLinkPerPair(g.links))
  }

  /** No later link joins the same two scenes. */
  ghost predicate Newest(links: seq<Link>, k: nat) {
    k < |links| && forall m :: k < m < |links| ==> !SamePair(links[k], links[m])
  }

  /** The link, read from r to s, is this transform. */
  predicate Carries(g: Graph, l: Link, r: Key, s: Key, p: Pose) {
    && (Joins(g, l, r, s) ==> l.pose == p)
    && (Joins(g, l, s, r) ==> l.pose == Invert(p))
  }

  // ---------------------------------------------------------------- one round

  lemma {:induction false} LinksBetweenFinds(g: Graph, links: seq<Link>, r: Key, s: Key)
    ensures forall l :: l in LinksBetween(g, links, r, s) <==> l in links && Between(g, l, r, s)
    ensures LinksBetween(g, links, r, s) == [] <==> forall l <- links :: !Between(g, l, r, s)
  {
    if links != [] {
      LinksBetweenFinds(g, links[..|links| - 1], r, s);
      assert links == links[..|links| - 1] + [links[|links| - 1]];
      var found := LinksBetween(g, links, r, s);
      if found != [] {
        assert found[0] in links;
      }
    }
  }

  lemma BetweenIsPair(g: Graph, l: Link, m: Link, r: Key, s: Key)
    requires KeysUnique(g) && l.src < |g.scenes| && l.dst < |g.scenes| && m.src < |g.scenes| && m.dst < |g.scenes|
    ensures Between(g, l, r, s) && Between(g, m, r, s) ==> SamePair(l, m)
    ensures Between(g, l, r, s) && SamePair(l, m) ==> Between(g, m, r, s)
  {
  }

  /** get_scene_link tells the truth when links are tagged, and is always 0 when they are not. */
  lemma GetSceneLinkIs(g: Graph, r: Key, s: Key, tagged: bool)
    requires LinksOk(g, tagged) && r != s
    ensures !tagged ==> GetSceneLink(g, r, s) == 0
    ensures tagged ==> (GetSceneLink(g, r, s) == 1 <==> exists l <- g.links :: Joins(g, l, r, s))
    ensures tagged ==> (GetSceneLink(g, r, s) == 2 <==> exists l <- g.links :: Joins(g, l, s, r))
    ensures GetSceneLink(g, r, s) == 0 || GetSceneLink(g, r, s) == 1 || GetSceneLink(g, r, s) == 2
  {
    LinksBetweenFinds(g, g.links, r, s);
    var found := LinksBetween(g, g.links, r, s);
    if tagged && found != [] {
      var l := found[0];
      assert l in found && Between(g, l, r, s);
      forall m <- g.links | Between(g, m, r, s)
        ensures m == l
      {
        BetweenIsPair(g, l, m, r, s);
        var i :| 0 <= i < |g.links| && g.links[i] == l;
        var j :| 0 <= j < |g.links| && g.links[j] == m;
        assert SamePair(m, l);
      }
    }
  }

  lemma CreateIsOneLink(g: Graph, i: nat, j: nat, p: Pose, tagged: bool)
    requires KeysUnique(g) && i < |g.scenes| && j < |g.scenes|
    ensures var r := g.scenes[i];
            CreateSceneLink(g, r, g.scenes[j], p, tagged) ==
            g.(links := g.links + [Link(i, j, p, if tagged then Some(r) else None)])
  {
    var tag := if tagged then Some(g.scenes[i]) else None;
    MatchesOne(g.scenes, g.scenes[i], i);
    MatchesOne(g.scenes, g.scenes[j], j);
    assert [i][1..] == [];
    assert CreateLinks([i], [j], p, tag) == [Link(i, j, p, tag)] + CreateLinks([i][1..], [j], p, tag);
  }

  /** Same ends and tags, position by position, and the same transforms away from the pair r, s. */
  ghost predicate OnlyPair(g: Graph, h: Graph, r: Key, s: Key) {
    && h == g.(links := h.links) && |g.links| <= |h.links|
    && (forall k :: 0 <= k < |g.links| ==>
      && h.links[k] == g.links[k].(pose := h.links[k].pose)
      && (Between(g, g.links[k], r, s) || h.links[k] == g.links[k]))
    && (forall k :: |g.links| <= k < |h.links| ==> Between(h, h.links[k], r, s))
  }

  /** The newest link between r and s carries p from r to s, and there is one. */
  ghost predicate NewestCarries(g: Graph, r: Key, s: Key, p: Pose) {
    && (exists l <- g.links :: Between(g, l, r, s))
    && (forall k: nat :: Newest(g.links, k) && Between(g, g.links[k], r, s) ==> Carries(g, g.links[k], r, s, p))
  }

  lemma UpdateIsPair(g: Graph, r: Key, s: Key, p: Pose, tagged: bool)
    requires LinksOk(g, tagged)
    ensures var h := UpdateSceneLink(g, r, s, p);
            LinksOk(h, tagged) && OnlyPair(g, h, r, s) && |h.links| == |g.links|
    ensures forall l <- UpdateSceneLink(g, r, s, p).links :: Joins(g, l, r, s) ==> l.pose == p
    ensures forall k :: 0 <= k < |g.links| && !Joins(g, g.links[k], r, s) ==>
              UpdateSceneLink(g, r, s, p).links[k] == g.links[k]
  {
    var h := UpdateSceneLink(g, r, s, p);
    assert forall k :: 0 <= k < |g.links| ==>
      h.links[k] == g.links[k].(pose := h.links[k].pose) && g.links[k] in g.links;
  }

  /** h has one more link, between r and s. */
  ghost predicate OneMore(g: Graph, h: Graph, l: Link, r: Key, s: Key) {
    h == g.(links := g.links + [l]) && Joins(g, l, r, s)
  }

  lemma OneMoreLinksOk(g: Graph, h: Graph, l: Link, r: Key, s: Key, tagged: bool)
    requires LinksOk(g, tagged) && OneMore(g, h, l, r, s) && r != s
    requires l.tag == if tagged then Some(r) else None
    requires tagged ==> forall m <- g.links :: !Between(g, m, r, s)
    ensures LinksOk(h, tagged)
  {
    if tagged {
      forall a, b | 0 <= a < b < |h.links|
        ensures !SamePair(h.links[a], h.links[b])
      {
        assert h.links[a] == g.links[a] && g.links[a] in g.links;
        if b == |g.links| {
          BetweenIsPair(g, l, g.links[a], r, s);
        }
      }
    }
  }

  lemma OneMoreCarries(g: Graph, h: Graph, l: Link, r: Key, s: Key, p: Pose)
    requires EdgesOk(h) && KeysUnique(h) && OneMore(g, h, l, r, s) && r != s && l.pose == p
    ensures OnlyPair(g, h, r, s) && NewestCarries(h, r, s, p) && h.links[..|g.links|] == g.links
  {
    hide Invert;
    var n := |g.links|;
    assert h.links[n] == l && Between(h, l, r, s) && l in h.links && !Joins(h, l, s, r);
    forall k: nat | Newest(h.links, k) && Between(h, h.links[k], r, s)
      ensures k == n
    {
      assert h.links[k] in h.links;
      BetweenIsPair(h, h.links[k], l, r, s);
    }
  }

  lemma CreateIsPair(g: Graph, r: Key, s: Key, p: Pose, tagged: bool)
    requires LinksOk(g, tagged) && r != s && r in g.scenes && s in g.scenes
    requires tagged ==> forall l <- g.links :: !Between(g, l, r, s)
    ensures var h := CreateSceneLink(g, r, s, p, tagged);
            LinksOk(h, tagged) && OnlyPair(g, h, r, s) && |h.links| == |g.links| + 1 &&
            NewestCarries(h, r, s, p) && h.links[..|g.links|] == g.links &&
            h.scenes == g.scenes && Joins(h, h.links[|g.links|], r, s)
  {
    hide CreateSceneLink, OnlyPair, NewestCarries, Between;
    var i: nat :| i < |g.scenes| && g.scenes[i] == r;
    var j: nat :| j < |g.scenes| && g.scenes[j] == s;
    CreateIsOneLink(g, i, j, p, tagged);
    var l := Link(i, j, p, if tagged then Some(r) else None);
    OneMoreLinksOk(g, CreateSceneLink(g, r, s, p, tagged), l, r, s, tagged);
    OneMoreCarries(g, CreateSceneLink(g, r, s, p, tagged), l, r, s, p);
  }

  lemma TaggedParts(g: Graph)
    requires LinksOk(g, true)
    ensures EdgesOk(g) && KeysUnique(g) && OneLinkPerPair(g.links)
  {
  }

  lemma UpdateCarries(g: Graph, r: Key, s: Key, p: Pose)
    requires LinksOk(g, true) && r != s && exists l <- g.links :: Joins(g, l, r, s)
    ensures NewestCarries(UpdateSceneLink(g, r, s, p), r, s, p)
  {
    hide UpdateSceneLink, Invert, LinksOk, KeysUnique;
    UpdateIsPair(g, r, s, p, true);
    var h := UpdateSceneLink(g, r, s, p);
    TaggedParts(h);
    var i :| 0 <= i < |g.links| && Joins(g, g.links[i], r, s);
    assert h.links[i] in h.links && Joins(h, h.links[i], r, s);
    forall k: nat | k < |h.links| && Between(h, h.links[k], r, s)
      ensures k == i
    {
      assert h.links[k] in h.links;
      BetweenIsPair(h, h.links[i], h.links[k], r, s);
    }
    assert !Joins(h, h.links[i], s, r);
  }

  lemma NewestEitherWay(g: Graph, r: Key, s: Key, p: Pose)
    ensures NewestCarries(g, r, s, p) ==> NewestCarries(g, s, r, Invert(p))
  {
    hide Invert;
    InvertTwice(p);
  }

  /** One round: whatever links there were, the newest one between the two scenes now carries the
      transform, and no other link changes. */
  lemma RelinkOneIs(g: Graph, r: Key, s: Key, p: Pose, tagged: bool)
    requires LinksOk(g, tagged) && r != s && r in g.scenes && s in g.scenes
    ensures var h := RelinkOne(g, r, s, p, tagged);
            LinksOk(h, tagged) && OnlyPair(g, h, r, s) && NewestCarries(h, r, s, p)
    ensures !tagged ==> RelinkOne(g, r, s, p, tagged) == CreateSceneLink(g, r, s, p, tagged)
  {
    GetSceneLinkIs(g, r, s, tagged);
    hide LinksOk, NewestCarries, UpdateSceneLink, CreateSceneLink, Invert, GetSceneLink;
    if GetSceneLink(g, r, s) == 0 {
      CreateIsPair(g, r, s, p, tagged);
    } else if GetSceneLink(g, r, s) == 1 {
      UpdateIsPair(g, r, s, p, tagged);
      UpdateCarries(g, r, s, p);
    } else {
      UpdateIsPair(g, s, r, Invert(p), tagged);
      UpdateCarries(g, s, r, Invert(p));
      NewestEitherWay(UpdateSceneLink(g, s, r, Invert(p)), s, r, Invert(p));
      InvertTwice(p);
    }
  }

  // ---------------------------------------------------------------- the whole loop

  ghost predicate RowsOk(g: Graph, rows: seq<Row>) {
    && (forall row <- rows :: row.scene in g.scenes)
    && (forall a, b :: 0 <= a < b < |rows| ==> rows[a].scene != rows[b].scene)
  }

  /** The link joins s and one of the other scenes in the rows. */
  ghost predicate TouchesRow(g: Graph, l: Link, rows: seq<Row>, s: Key) {
    exists row <- rows :: row.scene != s && Between(g, l, row.scene, s)
  }

  lemma PairApart(g: Graph, h: Graph, q: Key, r: Key, s: Key, p: Pose)
    requires OnlyPair(g, h, r, s) && NewestCarries(g, q, s, p) && q != r && q != s && r != s
    ensures NewestCarries(h, q, s, p)
  {
    var i :| 0 <= i < |g.links| && Between(g, g.links[i], q, s);
    assert h.links[i] in h.links && Between(h, h.links[i], q, s);
    forall k: nat | Newest(h.links, k) && Between(h, h.links[k], q, s)
      ensures Carries(h, h.links[k], q, s, p)
    {
      assert k < |g.links| && h.links[k] == g.links[k];
      assert Newest(g.links, k);
    }
  }

  ghost predicate OnlyRows(g: Graph, h: Graph, rows: seq<Row>, s: Key) {
    && h == g.(links := h.links) && |g.links| <= |h.links|
    && (forall k :: 0 <= k < |g.links| ==>
      && h.links[k] == g.links[k].(pose := h.links[k].pose)
      && (TouchesRow(g, g.links[k], rows, s) || h.links[k] == g.links[k]))
    && (forall k :: |g.links| <= k < |h.links| ==> TouchesRow(h, h.links[k], rows, s))
  }

  lemma OnlyOneMore(g: Graph, m: Graph, h: Graph, rows: seq<Row>, s: Key)
    requires rows != [] && rows[|rows| - 1].scene != s
    requires OnlyRows(g, m, rows[..|rows| - 1], s) && OnlyPair(m, h, rows[|rows| - 1].scene, s)
    ensures OnlyRows(g, h, rows, s)
  {
    var n := |rows| - 1;
    assert forall l :: TouchesRow(g, l, rows[..n], s) ==> TouchesRow(g, l, rows, s);
    assert rows[n] in rows;
    forall k | 0 <= k < |h.links|
      ensures k < |g.links| ==> h.links[k] == g.links[k].(pose := h.links[k].pose)
      ensures k < |g.links| ==> TouchesRow(g, g.links[k], rows, s) || h.links[k] == g.links[k]
      ensures |g.links| <= k ==> TouchesRow(h, h.links[k], rows, s)
    {
      if k < |m.links| && !Between(m, m.links[k], rows[n].scene, s) {
        assert h.links[k] == m.links[k];
      }
    }
  }

  /** The loop of an alignment at s: for every other scene of the rows the newest link between the
      two carries the transform from that scene to s, and links that join no such pair are as they were. */
  lemma {:induction false} RelinkIs(g: Graph, rows: seq<Row>, s: Key, inS: Pose, tagged: bool)
    requires LinksOk(g, tagged) && RowsOk(g, rows) && s in g.scenes
    ensures var h := Relink(g, rows, s, inS, tagged);
      && LinksOk(h, tagged) && OnlyRows(g, h, rows, s)
      && forall row <- rows :: row.scene != s ==> NewestCarries(h, row.scene, s, Toward(row.pose, inS))
  {
    hide LinksOk, NewestCarries, Toward, RelinkOne, OnlyPair;
    if rows != [] {
      var n := |rows| - 1;
      var m := Relink(g, rows[..n], s, inS, tagged);
      RelinkIs(g, rows[..n], s, inS, tagged);
      assert forall l, f: Graph :: TouchesRow(f, l, rows[..n], s) ==> TouchesRow(f, l, rows, s);
      if rows[n].scene != s {
        var r := rows[n].scene;
        RelinkOneIs(m, r, s, Toward(rows[n].pose, inS), tagged);
        var h := Relink(g, rows, s, inS, tagged);
        OnlyOneMore(g, m, h, rows, s);
        forall row <- rows | row.scene != s
          ensures NewestCarries(h, row.scene, s, Toward(row.pose, inS))
        {
          var a :| 0 <= a <= n && rows[a] == row;
          if a < n {
            assert row == rows[..n][a];
            PairApart(m, h, row.scene, r, s, Toward(row.pose, inS));
          }
        }
      }
    }
  }
}
