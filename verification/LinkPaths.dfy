/**
 Paths along links. The search for a path may walk any link in either direction, so what it folds to
 depends on all links: they fold to the transform between their ends exactly when every link is the
 transform between the device's places in its two scenes.
 */
module LinkPaths {
  import opened Poses
  import opened Paths
  import opened SceneGraph
  import opened GraphProofs
  import opened SceneLinks
  import opened Registration
  import opened RegistrationProofs
  import opened RegistrationTheorems
  import opened Telescoping

  ghost function LinksOf(g: Graph): set<Link> {
    set l | l in g.links
  }

  ghost function NewestOf(g: Graph): set<Link> {
    set k | 0 <= k < |g.links| && Newest(g.links, k) :: g.links[k]
  }

  /** Each of these links is the transform between d's places in its scenes. */
  ghost predicate TellAll(g: Graph, links: set<Link>, d: Key) {
    forall l <- links :: Tells(g, l, d)
  }

  ghost predicate AllTell(g: Graph, d: Key) {
    TellAll(g, LinksOf(g), d)
  }

  // ---------------------------------------------------------------- paths

  predicate IsHopOver(g: Graph, l: Link, e: PathElement, mid: Key, to: Key) {
    e.EdgeElement? && PoseOf(e.props) == l.pose && if e.forward then Joins(g, l, mid, to) else Joins(g, l, to, mid)
  }

  ghost predicate IsHop(g: Graph, links: set<Link>, e: PathElement, mid: Key, to: Key) {
    exists l <- links :: IsHopOver(g, l, e, mid, to)
  }

  /** A path as the database returns it, along these links: each edge holds what a link stores and
      says whether it is walked from source to destination. */
  ghost predicate IsPath(g: Graph, links: set<Link>, path: seq<PathElement>, from: Key, to: Key)
    decreases |path|
  {
    if path == [] then from == to
    else
      var n := |path| - 1;
      if path[n].NodeElement? then IsPath(g, links, path[..n], from, to)
      else exists mid :: IsHop(g, links, path[n], mid, to) && IsPath(g, links, path[..n], from, mid)
  }

  /** Every path along these links between places of d folds to the transform between them. */
  ghost predicate AllFold(g: Graph, links: set<Link>, d: Key) {
    forall path, from, to, a, b ::
      IsPath(g, links, path, from, to) && Registered(g, from, d, a) && Registered(g, to, d, b) ==>
      Fold(path) == Toward(a, b)
  }

  lemma OkParts(g: Graph)
    requires Ok(g)
    ensures EdgesOk(g) && KeysUnique(g)
  {
  }

  lemma TellsExactly(g: Graph, l: Link, d: Key, a: Pose, b: Pose)
    requires Ok(g) && l.src < |g.scenes| && l.dst < |g.scenes|
    requires Registered(g, g.scenes[l.src], d, a) && Registered(g, g.scenes[l.dst], d, b)
    ensures Tells(g, l, d) <==> l.pose == Toward(a, b)
  {
    hide Registered, Toward, Ok;
    if Tells(g, l, d) {
      var p, q :|
        Registered(g, g.scenes[l.src], d, p) && Registered(g, g.scenes[l.dst], d, q) && l.pose == Toward(p, q);
      RegisteredOnce(g, g.scenes[l.src], d, a, p);
      RegisteredOnce(g, g.scenes[l.dst], d, b, q);
    }
  }

  /** A hop over a link that tells the truth is the transform between the device's places. */
  lemma HopTells(g: Graph, l: Link, e: PathElement, mid: Key, to: Key, d: Key, atTo: Pose) returns (atMid: Pose)
    requires Ok(g) && Tells(g, l, d) && IsHopOver(g, l, e, mid, to) && Registered(g, to, d, atTo)
    ensures Registered(g, mid, d, atMid) && EdgePose(e) == Toward(atMid, atTo)
  {
    hide Ok, Registered, Toward, Invert, PoseOf;
    var a, b :|
      Registered(g, g.scenes[l.src], d, a) && Registered(g, g.scenes[l.dst], d, b) && l.pose == Toward(a, b);
    if e.forward {
      RegisteredOnce(g, to, d, b, atTo);
      atMid := a;
    } else {
      RegisteredOnce(g, to, d, a, atTo);
      TowardInverts(a, b);
      atMid := b;
    }
  }

  /** Along links that tell the truth every path folds to the transform between the device's places
      in its ends, of any length and with edges in either direction. */
  lemma {:induction false} PathFolds(
      g: Graph, links: set<Link>, path: seq<PathElement>, from: Key, to: Key, d: Key, a: Pose, b: Pose)
    requires Ok(g) && TellAll(g, links, d) && IsPath(g, links, path, from, to)
    requires Registered(g, from, d, a) && Registered(g, to, d, b)
    ensures Fold(path) == Toward(a, b)
    decreases |path|
  {
    hide Ok, Tells, Registered, Toward, Compose, EdgePose, IsHopOver, Still;
    if path == [] {
      RegisteredOnce(g, from, d, a, b);
      TowardSelf(a);
    } else {
      var n := |path| - 1;
      if path[n].NodeElement? {
        PathFolds(g, links, path[..n], from, to, d, a, b);
      } else {
        var mid :| IsHop(g, links, path[n], mid, to) && IsPath(g, links, path[..n], from, mid);
        var l :| l in links && IsHopOver(g, l, path[n], mid, to);
        var m := HopTells(g, l, path[n], mid, to, d, b);
        PathFolds(g, links, path[..n], from, mid, d, a, m);
        TowardChains(a, m, b);
      }
    }
  }

  /** So every closed walk folds to the neutral transform. */
  lemma ClosedWalkFolds(g: Graph, links: set<Link>, path: seq<PathElement>, at: Key, d: Key, a: Pose)
    requires Ok(g) && TellAll(g, links, d) && IsPath(g, links, path, at, at) && Registered(g, at, d, a)
    ensures Fold(path) == Still()
  {
    hide Ok, TellAll, IsPath, Registered, Toward, Still, Fold;
    PathFolds(g, links, path, at, at, d, a, a);
    TowardSelf(a);
  }

  // ---------------------------------------------------------------- and only along such links

  /** The path over one edge, walked forward. */
  function OneHop(p: EdgeProps): seq<PathElement> {
    [EdgeElement(p, true)]
  }

  /** A path over one stored link folds to the transform between the device's places exactly when the
      link tells the truth; a link that does not is a path that folds wrong. */
  lemma OneHopFolds(g: Graph, links: set<Link>, l: Link, p: EdgeProps, d: Key, a: Pose, b: Pose)
    requires Ok(g) && l in links && PoseOf(p) == l.pose && l.src < |g.scenes| && l.dst < |g.scenes|
    requires Registered(g, g.scenes[l.src], d, a) && Registered(g, g.scenes[l.dst], d, b)
    ensures IsPath(g, links, OneHop(p), g.scenes[l.src], g.scenes[l.dst])
    ensures Fold(OneHop(p)) == l.pose
    ensures Fold(OneHop(p)) == Toward(a, b) <==> Tells(g, l, d)
  {
    hide Ok, Registered, Toward, PoseOf, Tells, Fold, IsPath, Compose, Invert;
    TellsExactly(g, l, d, a, b);
    FoldOne(EdgeElement(p, true));
    OneHopIsPath(g, links, l, p);
  }

  lemma OneHopIsPath(g: Graph, links: set<Link>, l: Link, p: EdgeProps)
    requires l in links && PoseOf(p) == l.pose && l.src < |g.scenes| && l.dst < |g.scenes|
    ensures IsPath(g, links, OneHop(p), g.scenes[l.src], g.scenes[l.dst])
  {
    hide PoseOf;
    LastHop(g, links, [], EdgeElement(p, true), g.scenes[l.src], g.scenes[l.src], g.scenes[l.dst], l);
    assert [] + [EdgeElement(p, true)] == OneHop(p);
  }

  /** A path goes on over a link. */
  lemma LastHop(g: Graph, links: set<Link>, path: seq<PathElement>, e: PathElement,
                from: Key, mid: Key, to: Key, l: Link)
    requires IsPath(g, links, path, from, mid) && l in links && IsHopOver(g, l, e, mid, to)
    ensures IsPath(g, links, path + [e], from, to)
  {
    var longer := path + [e];
    assert e.EdgeElement? && longer[|longer| - 1] == e && longer[..|longer| - 1] == path;
    assert IsHop(g, links, e, mid, to);
    hide IsHopOver, IsHop;
  }

  /** The device is registered at both ends of the link. */
  ghost predicate EndsRegistered(g: Graph, l: Link, d: Key) {
    && l.src < |g.scenes| && l.dst < |g.scenes|
    && HasReg(g, g.scenes[l.src], d) && HasReg(g, g.scenes[l.dst], d)
  }

  /** The link is what some stored edge holds. */
  ghost predicate IsStored(l: Link) {
    exists p: EdgeProps :: PoseOf(p) == l.pose
  }

  /** Exactly when all links tell the truth do all paths along them fold right. */
  lemma PathsFoldExactly(g: Graph, links: set<Link>, d: Key)
    requires Ok(g) && forall l <- links :: EndsRegistered(g, l, d) && IsStored(l)
    ensures AllFold(g, links, d) <==> TellAll(g, links, d)
  {
    hide Ok, Registered, Toward, Tells, PoseOf, HasReg, Fold, IsPath;
    if TellAll(g, links, d) {
      forall path, from, to, a, b |
        IsPath(g, links, path, from, to) && Registered(g, from, d, a) && Registered(g, to, d, b)
        ensures Fold(path) == Toward(a, b)
      {
        PathFolds(g, links, path, from, to, d, a, b);
      }
    }
    if AllFold(g, links, d) {
      forall l <- links
        ensures Tells(g, l, d)
      {
        HasRegIs(g, g.scenes[l.src], d);
        HasRegIs(g, g.scenes[l.dst], d);
        var a :| Registered(g, g.scenes[l.src], d, a);
        var b :| Registered(g, g.scenes[l.dst], d, b);
        var p :| PoseOf(p) == l.pose;
        OneHopFolds(g, links, l, p, d, a, b);
      }
    }
  }

  // ---------------------------------------------------------------- after every run of one device

  lemma EmptyTelescopes(d: Key)
    ensures Telescopes(EMPTY, d)
  {
  }

  lemma NewestTell(g: Graph, d: Key)
    ensures Telescopes(g, d) <==> TellAll(g, NewestOf(g), d)
  {
    hide Tells;
    if TellAll(g, NewestOf(g), d) {
      forall k: nat | Newest(g.links, k)
        ensures Tells(g, g.links[k], d)
      {
        assert g.links[k] in NewestOf(g);
      }
    }
  }

  /** After any run in which only device d is aligned and d is never deregistered, every path along
      newest links folds to the transform between d's places in its ends, as coded and when tagged. */
  lemma PathsTelescope(reqs: seq<Request>, d: Key, tagged: bool,
                       path: seq<PathElement>, from: Key, to: Key, a: Pose, b: Pose)
    requires Runs(EMPTY, reqs, d, tagged)
    requires var g := Run(EMPTY, reqs, tagged);
      IsPath(g, NewestOf(g), path, from, to) && Registered(g, from, d, a) && Registered(g, to, d, b)
    ensures Fold(path) == Toward(a, b)
    ensures from == to ==> Fold(path) == Still()
  {
    hide Run, Sound, IsPath, Registered, Toward, Still, IdsAreNew, Fold, Telescopes, Ok, LinksOk, NewestOf, TellAll;
    var g := Run(EMPTY, reqs, tagged);
    EmptyIsSound(tagged);
    EmptyTelescopes(d);
    RunTelescopes(EMPTY, reqs, d, tagged);
    UnfoldSound(g, tagged);
    NewestTell(g, d);
    PathFolds(g, NewestOf(g), path, from, to, d, a, b);
    if from == to {
      ClosedWalkFolds(g, NewestOf(g), path, from, d, a);
    }
  }

  lemma {:induction false} NewestOfPair(links: seq<Link>, k: nat) returns (m: nat)
    requires k < |links|
    ensures Newest(links, m) && SamePair(links[k], links[m])
    decreases |links| - k
  {
    if j :| k < j < |links| && SamePair(links[k], links[j]) {
      m := NewestOfPair(links, j);
    } else {
      m := k;
    }
  }

  /** Whoever the newest links tell of is registered at both ends of every link. */
  lemma EndsAreRegistered(g: Graph, d: Key)
    requires EdgesOk(g) && Telescopes(g, d)
    ensures forall l <- g.links :: EndsRegistered(g, l, d)
  {
    hide Registered, Toward, HasReg;
    forall l <- g.links
      ensures EndsRegistered(g, l, d)
    {
      var k :| 0 <= k < |g.links| && g.links[k] == l;
      var m := NewestOfPair(g.links, k);
      assert Tells(g, g.links[m], d);
      HasRegIs(g, g.scenes[l.src], d);
      HasRegIs(g, g.scenes[l.dst], d);
    }
  }

  /** After any such run, in either mode: all paths, along whatever links, fold right exactly when
      every link tells the truth. */
  lemma AllPathsExactly(reqs: seq<Request>, d: Key, tagged: bool)
    requires Runs(EMPTY, reqs, d, tagged)
    requires forall l <- Run(EMPTY, reqs, tagged).links :: IsStored(l)
    ensures var g := Run(EMPTY, reqs, tagged); AllFold(g, LinksOf(g), d) <==> AllTell(g, d)
  {
    hide Run, Sound, IsStored, Telescopes, Ok, LinksOk, AllFold, TellAll, EndsRegistered, IdsAreNew, EdgesOk;
    var g := Run(EMPTY, reqs, tagged);
    EmptyIsSound(tagged);
    EmptyTelescopes(d);
    RunTelescopes(EMPTY, reqs, d, tagged);
    UnfoldSound(g, tagged);
    OkParts(g);
    EndsAreRegistered(g, d);
    PathsFoldExactly(g, LinksOf(g), d);
  }

  /** With tagged links every run of one device leaves one link per pair, and all of them right. */
  lemma TaggedRun(reqs: seq<Request>, d: Key)
    requires Runs(EMPTY, reqs, d, true)
    ensures OneLinkPerPair(Run(EMPTY, reqs, true).links) && AllTell(Run(EMPTY, reqs, true), d)
  {
    hide Run, Tells, IdsAreNew;
    EmptyIsSound(true);
    var g := Run(EMPTY, reqs, true);
    EmptyTelescopes(d);
    RunTelescopes(EMPTY, reqs, d, true);
    forall l <- g.links
      ensures Tells(g, l, d)
    {
      var k :| 0 <= k < |g.links| && g.links[k] == l;
      TaggedAreNewest(g, k);
    }
  }

  /** With tagged links, after any such run, every path from one scene to another, of any length and
      with edges in either direction, folds to the transform between the device's places in them, and
      every closed walk to the neutral one. */
  lemma TaggedPathsTelescope(reqs: seq<Request>, d: Key, path: seq<PathElement>, from: Key, to: Key, a: Pose, b: Pose)
    requires Runs(EMPTY, reqs, d, true)
    requires var g := Run(EMPTY, reqs, true);
      IsPath(g, LinksOf(g), path, from, to) && Registered(g, from, d, a) && Registered(g, to, d, b)
    ensures Fold(path) == Toward(a, b)
    ensures from == to ==> Fold(path) == Still()
  {
    hide Run, Sound, IsPath, Registered, Toward, Still, IdsAreNew, Fold, Telescopes, Ok, LinksOk, LinksOf, TellAll;
    var g := Run(EMPTY, reqs, true);
    EmptyIsSound(true);
    EmptyTelescopes(d);
    RunTelescopes(EMPTY, reqs, d, true);
    UnfoldSound(g, true);
    TaggedRun(reqs, d);
    PathFolds(g, LinksOf(g), path, from, to, d, a, b);
    if from == to {
      ClosedWalkFolds(g, LinksOf(g), path, from, d, a);
    }
  }
}
