/**
 Running a keyless retrieval against stored scene nodes, and the filter it is meant to be. `arc` is
 the great-circle distance the haversine clause computes, from the latitude it is given twice, the
 longitude, and a node's latitude and longitude.
 */
module QueryEvaluation {
  import opened Wrappers
  import opened Json
  import opened SceneLists
  import opened Query
  import opened QueryBuilder
  import opened QueryMeaning

  /** A stored scene; any property but the key may be missing. */
  datatype Node = Node(
    key: string, name: Option<string>, region: Option<string>, description: Option<string>, user: Option<string>,
    thumbnail: Option<string>, active: Option<bool>, isPublic: Option<bool>,
    latitude: Option<real>, longitude: Option<real>, assets: Option<seq<string>>, tags: Option<seq<string>>)

  type Arc = (real, real, real, real, real) -> real

  // ---------------------------------------------------------------- what the database does

  function TextOf(v: Option<string>): Option<Tree> {
    if v.None? then None else Some(Str(v.value))
  }

  function PropOf(n: Node, prop: string): Option<Tree> {
    if prop == "key" then Some(Str(n.key))
    else if prop == "name" then TextOf(n.name)
    else if prop == "region" then TextOf(n.region)
    else if prop == "user" then TextOf(n.user)
    else if prop == "public" then if n.isPublic.None? then None else Some(Bool(n.isPublic.value))
    else None
  }

  /** A missing property equals nothing. */
  predicate EqualsHolds(e: Equals, params: seq<Member>, n: Node) {
    Bound(params, e.name) && PropOf(n, e.prop) == Find(params, e.name)
  }

  /** Nothing is in a missing list, and nothing is below a distance to a missing place. */
  predicate ConditionHolds(c: Condition, params: seq<Member>, n: Node, arc: Arc) {
    match c
    case AllTags(tags) =>
      var wanted := Find(params, tags);
      && wanted.Some? && wanted.value.Arr?
      && forall t <- wanted.value.items :: t.Str? && n.tags.Some? && t.s in n.tags.value
    case Within(lat, lat2, long, distance) =>
      var (a, b, c, d) := (Find(params, lat), Find(params, lat2), Find(params, long), Find(params, distance));
      && a.Some? && a.value.Real? && b.Some? && b.value.Real? && c.Some? && c.value.Real? && d.Some? && d.value.Real?
      && n.latitude.Some? && n.longitude.Some?
      && arc(a.value.r, b.value.r, c.value.r, n.latitude.value, n.longitude.value) < d.value.r
  }

  predicate Selects(q: Retrieval, params: seq<Member>, n: Node, arc: Arc) {
    && (forall e <- q.pattern :: EqualsHolds(e, params, n))
    && (forall c <- q.conditions :: ConditionHolds(c, params, n, arc))
  }

  function Selected(q: Retrieval, params: seq<Member>, store: seq<Node>, arc: Arc): seq<Node> {
    if store == [] then []
    else
      var k := |store| - 1;
      Selected(q, params, store[..k], arc) + if Selects(q, params, store[k], arc) then [store[k]] else []
  }

  /** Order of strings, character by character. */
  predicate Upto(a: string, b: string) {
    a == [] || (b != [] && (a[0] < b[0] || (a[0] == b[0] && Upto(a[1..], b[1..]))))
  }

  function Insert(n: Node, sorted: seq<Node>): seq<Node> {
    if sorted == [] then [n]
    else if Upto(n.key, sorted[0].key) then [n] + sorted
    else [sorted[0]] + Insert(n, sorted[1..])
  }

  function SortByKey(nodes: seq<Node>): seq<Node> {
    if nodes == [] then [] else Insert(nodes[0], SortByKey(nodes[1..]))
  }

  function Slice<T>(xs: seq<T>, skip: nat, limit: nat): seq<T> {
    var lo := if skip < |xs| then skip else |xs|;
    xs[lo..if lo + limit < |xs| then lo + limit else |xs|]
  }

  /** The rows, or nothing when the database refuses: an unbound placeholder, a negative count. */
  function Evaluate(q: Retrieval, params: seq<Member>, store: seq<Node>, arc: Arc): Option<seq<Node>> {
    if !Closed(Render(q), params) then None
    else
      var (s, l) := (Find(params, q.skip), Find(params, q.limit));
      if s.None? || !s.value.Num? || s.value.n < 0 || l.None? || !l.value.Num? || l.value.n < 0 then None
      else Some(Slice(SortByKey(Selected(q, params, store, arc)), s.value.n, l.value.n))
  }

  // ---------------------------------------------------------------- the filter, directly

  /** Private scenes of the user or public ones; but only when a name or a region is given. */
  predicate Visible(scn: Scene, n: Node) {
    if scn.user != "" && !scn.isPublic then n.user == Some(scn.user)
    else scn.isPublic ==> n.isPublic == Some(true)
  }

  predicate Near(scn: Scene, n: Node, arc: Arc) {
    && n.latitude.Some? && n.longitude.Some?
    && arc(scn.latitude, scn.latitude, scn.longitude, n.latitude.value, n.longitude.value) < scn.distance
  }

  predicate Meets(scn: Scene, n: Node, arc: Arc) {
    && (scn.name != "" ==> n.name == Some(scn.name))
    && (scn.region != "" ==> n.region == Some(scn.region))
    && (scn.name != "" || scn.region != "" ==> Visible(scn, n))
    && (forall t <- scn.tags :: n.tags.Some? && t in n.tags.value)
    && (HasDistance(scn) ==> Near(scn, n, arc))
  }

  function Meeting(scn: Scene, store: seq<Node>, arc: Arc): seq<Node> {
    if store == [] then []
    else
      var k := |store| - 1;
      Meeting(scn, store[..k], arc) + if Meets(scn, store[k], arc) then [store[k]] else []
  }

  // ---------------------------------------------------------------- the order of the rows

  lemma {:induction false} UptoTotal(a: string, b: string)
    ensures Upto(a, b) || Upto(b, a)
  {
    if a != [] && b != [] && a[0] == b[0] {
      UptoTotal(a[1..], b[1..]);
    }
  }

  /** It is the lexicographic order: a prefix comes first, and otherwise the first difference decides. */
  lemma {:induction false} UptoIsLexicographic(a: string, b: string, k: nat)
    requires k <= |a| && k <= |b| && a[..k] == b[..k]
    ensures k == |a| ==> Upto(a, b)
    ensures k < |a| && (k == |b| || a[k] > b[k]) ==> !Upto(a, b)
    ensures k < |a| && k < |b| && a[k] < b[k] ==> Upto(a, b)
  {
    if k > 0 {
      assert a[0] == a[..k][0] == b[..k][0] == b[0];
      assert a[1..][..k - 1] == a[..k][1..] == b[..k][1..] == b[1..][..k - 1];
      UptoIsLexicographic(a[1..], b[1..], k - 1);
    }
  }

  lemma {:induction false} UptoTransitive(a: string, b: string, c: string)
    requires Upto(a, b) && Upto(b, c)
    ensures Upto(a, c)
  {
    if a != [] && a[0] == b[0] && b[0] == c[0] {
      UptoTransitive(a[1..], b[1..], c[1..]);
    }
  }

  lemma {:induction false} UptoAntisymmetric(a: string, b: string)
    requires Upto(a, b) && Upto(b, a)
    ensures a == b
  {
    if a != [] {
      UptoAntisymmetric(a[1..], b[1..]);
      assert a == [a[0]] + a[1..] && b == [b[0]] + b[1..];
    }
  }

  ghost predicate Sorted(nodes: seq<Node>) {
    forall i, j :: 0 <= i < j < |nodes| ==> Upto(nodes[i].key, nodes[j].key)
  }

  lemma {:induction false} InsertAdds(n: Node, sorted: seq<Node>)
    ensures multiset(Insert(n, sorted)) == multiset(sorted) + multiset{n}
    ensures forall m :: m in Insert(n, sorted) <==> m == n || m in sorted
  {
    hide Upto;
    if sorted != [] {
      assert sorted == [sorted[0]] + sorted[1..];
      InsertAdds(n, sorted[1..]);
    }
  }

  lemma {:induction false} InsertSorts(n: Node, sorted: seq<Node>)
    requires Sorted(sorted)
    ensures Sorted(Insert(n, sorted))
  {
    hide Upto;
    if sorted != [] {
      UptoTotal(n.key, sorted[0].key);
      if Upto(n.key, sorted[0].key) {
        forall j | 0 < j < |sorted|
          ensures Upto(n.key, sorted[j].key)
        {
          UptoTransitive(n.key, sorted[0].key, sorted[j].key);
        }
      } else {
        InsertSorts(n, sorted[1..]);
        InsertAdds(n, sorted[1..]);
        assert forall m :: m in sorted[1..] ==> Upto(sorted[0].key, m.key);
      }
    }
  }

  /** The rows come in key order, each selected node once. */
  lemma {:induction false} SortByKeyIs(nodes: seq<Node>)
    ensures Sorted(SortByKey(nodes)) && multiset(SortByKey(nodes)) == multiset(nodes)
  {
    if nodes != [] {
      SortByKeyIs(nodes[1..]);
      InsertAdds(nodes[0], SortByKey(nodes[1..]));
      InsertSorts(nodes[0], SortByKey(nodes[1..]));
      assert nodes == [nodes[0]] + nodes[1..];
    }
  }

  // ---------------------------------------------------------------- the query means the filter

  lemma EachHolds(scn: Scene, p: seq<Member>, n: Node)
    requires Find(p, "inp_name") == Text(scn.name) && Find(p, "inp_region") == Text(scn.region)
    requires Find(p, "inp_user") == (if scn.user != "" || scn.isPublic then Some(Str(scn.user)) else None)
    requires Find(p, "inp_public") == Some(Bool(scn.isPublic))
    ensures EqualsHolds(Equals("name", "inp_name"), p, n) <==> scn.name != "" && n.name == Some(scn.name)
    ensures EqualsHolds(Equals("region", "inp_region"), p, n) <==> scn.region != "" && n.region == Some(scn.region)
    ensures EqualsHolds(Equals("user", "inp_user"), p, n) <==>
            (scn.user != "" || scn.isPublic) && n.user == Some(scn.user)
    ensures EqualsHolds(Equals("public", "inp_public"), p, n) <==> n.isPublic == Some(scn.isPublic)
  {
    hide Find;
  }

  lemma MatchMeans(scn: Scene, p: seq<Member>, n: Node)
    requires Find(p, "inp_name") == Text(scn.name) && Find(p, "inp_region") == Text(scn.region)
    requires Find(p, "inp_user") == (if scn.user != "" || scn.isPublic then Some(Str(scn.user)) else None)
    requires Find(p, "inp_public") == Some(Bool(scn.isPublic))
    ensures (forall e <- MatchOf(scn) :: EqualsHolds(e, p, n)) <==>
      && (scn.name != "" ==> n.name == Some(scn.name))
      && (scn.region != "" ==> n.region == Some(scn.region))
      && (scn.name != "" || scn.region != "" ==> Visible(scn, n))
  {
    hide EqualsHolds, Find, PropOf;
    var a, b := Equals("name", "inp_name"), Equals("region", "inp_region");
    var c, d := Equals("user", "inp_user"), Equals("public", "inp_public");
    EachHolds(scn, p, n);
    var ms := MatchOf(scn);
    if scn.name != "" || scn.region != "" {
      assert a in ms <==> scn.name != "";
      assert b in ms <==> scn.region != "";
      assert c in ms <==> scn.user != "" && !scn.isPublic;
      assert d in ms <==> scn.isPublic;
      assert forall e <- ms :: e == a || e == b || e == c || e == d;
    }
  }

  lemma TextsHold(ts: seq<string>, tags: Option<seq<string>>)
    ensures (forall t <- Texts(ts) :: t.Str? && tags.Some? && t.s in tags.value) <==>
            (forall t <- ts :: tags.Some? && t in tags.value)
  {
    forall t <- ts
      ensures Str(t) in Texts(ts)
    {
      var i :| 0 <= i < |ts| && ts[i] == t;
      assert Texts(ts)[i] == Str(t);
    }
    forall t <- Texts(ts)
      ensures t.Str? && t.s in ts
    {
    }
  }

  lemma WhereMeans(scn: Scene, p: seq<Member>, n: Node, arc: Arc)
    requires Find(p, "inp_tags") == (if scn.tags == [] then None else Some(Arr(Texts(scn.tags))))
    requires Find(p, "inp_lat") == Above(scn.latitude) && Find(p, "inp_long") == Above(scn.longitude)
    requires HasDistance(scn) ==> Find(p, "inp_distance") == Some(Real(scn.distance))
    ensures (forall c <- WhereOf(scn) :: ConditionHolds(c, p, n, arc)) <==>
      && (forall t <- scn.tags :: n.tags.Some? && t in n.tags.value) && (HasDistance(scn) ==> Near(scn, n, arc))
  {
    hide Find, Texts;
    TextsHold(scn.tags, n.tags);
    var a, d := AllTags("inp_tags"), Within("inp_lat", "inp_lat", "inp_long", "inp_distance");
    assert scn.tags != [] ==>
      (ConditionHolds(a, p, n, arc) <==> forall t <- scn.tags :: n.tags.Some? && t in n.tags.value);
    assert HasDistance(scn) ==> (ConditionHolds(d, p, n, arc) <==> Near(scn, n, arc));
    hide ConditionHolds, Near, HasDistance;
    var ws := WhereOf(scn);
    assert a in ws <==> scn.tags != [];
    assert d in ws <==> HasDistance(scn);
    assert forall c <- ws :: c == a || c == d;
  }

  lemma SelectsIsMeets(scn: Scene, skip: Int32, limit: Int32, n: Node, arc: Arc)
    requires !Unbound("", GetOp, scn)
    ensures Selects(QueryOf(scn), Params("", GetOp, scn, skip, limit), n, arc) <==> Meets(scn, n, arc)
  {
    hide Find, Params, Texts, MatchOf, WhereOf, EqualsHolds, ConditionHolds, Near, Visible;
    ParamAt("", GetOp, scn, skip, limit, 4);
    ParamAt("", GetOp, scn, skip, limit, 5);
    ParamAt("", GetOp, scn, skip, limit, 6);
    ParamAt("", GetOp, scn, skip, limit, 7);
    ParamAt("", GetOp, scn, skip, limit, 9);
    ParamAt("", GetOp, scn, skip, limit, 11);
    ParamAt("", GetOp, scn, skip, limit, 14);
    BoundPaging("", GetOp, scn, skip, limit);
    MatchMeans(scn, Params("", GetOp, scn, skip, limit), n);
    WhereMeans(scn, Params("", GetOp, scn, skip, limit), n, arc);
  }

  lemma {:induction false} SelectedIsMeeting(scn: Scene, skip: Int32, limit: Int32, store: seq<Node>, arc: Arc)
    requires !Unbound("", GetOp, scn)
    ensures Selected(QueryOf(scn), Params("", GetOp, scn, skip, limit), store, arc) == Meeting(scn, store, arc)
  {
    hide Selects, Meets, QueryOf, Params;
    if store != [] {
      SelectedIsMeeting(scn, skip, limit, store[..|store| - 1], arc);
      SelectsIsMeets(scn, skip, limit, store[|store| - 1], arc);
    }
  }

  /** For every filter and store: the tokens of a keyless retrieval parse, and evaluated under the
      generated parameters they give exactly the scenes meeting the filter, in key order, skipped and
      limited; the database refuses exactly when the distance clause has no distance or the start or
      the count is negative. */
  lemma KeylessGetMeansFilter(scn: Scene, opType: Int32, skip: Int32, limit: Int32, store: seq<Node>, arc: Arc)
    ensures var q := Parse(Generated("", GetOp, opType, scn));
      && q.Some?
      && Evaluate(q.value, Params("", GetOp, scn, skip, limit), store, arc) ==
           if Unbound("", GetOp, scn) || skip < 0 || limit < 0 then None
           else Some(Slice(SortByKey(Meeting(scn, store, arc)), skip, limit))
  {
    hide Find, Params, Render, SortByKey, Selected, Meeting, Slice, Closed, MatchOf, WhereOf, Parse;
    ParseRender(QueryOf(scn));
    RetrievalClosed(scn, skip, limit);
    BoundPaging("", GetOp, scn, skip, limit);
    if !Unbound("", GetOp, scn) {
      SelectedIsMeeting(scn, skip, limit, store, arc);
    }
  }

  // ---------------------------------------------------------------- the same, written out

  lemma {:induction false} MeetingIs(scn: Scene, store: seq<Node>, arc: Arc)
    ensures forall n :: n in Meeting(scn, store, arc) <==> n in store && Meets(scn, n, arc)
    ensures forall n :: Meets(scn, n, arc) ==> multiset(Meeting(scn, store, arc))[n] == multiset(store)[n]
    ensures |Meeting(scn, store, arc)| <= |store|
  {
    hide Meets;
    if store != [] {
      var k := |store| - 1;
      MeetingIs(scn, store[..k], arc);
      assert store == store[..k] + [store[k]];
      OneMoreCount(store[..k], store[k]);
      OneMoreCount(Meeting(scn, store[..k], arc), store[k]);
    }
  }

  lemma OneMoreCount(a: seq<Node>, n: Node)
    ensures multiset(a + [n]) == multiset(a) + multiset{n}
    ensures a + [] == a
  {
  }

  /** What the generated query gives under the generated parameters, from the first row on. */
  function AllRows(scn: Scene, opType: Int32, limit: Int32, store: seq<Node>, arc: Arc): Option<seq<Node>> {
    var q := Parse(Generated("", GetOp, opType, scn));
    if q.None? then None else Evaluate(q.value, Params("", GetOp, scn, 0, limit), store, arc)
  }

  /** A keyless retrieval of everything: refused exactly when both coordinates are given with a
      distance above 0 and at most 0.01; otherwise the rows are exactly the stored scenes that have
      the given name, region, tags and visibility and, where coordinates and distance are given, a
      place within the distance. Without them the place is not looked at. */
  lemma KeylessGetSelectsExactly(scn: Scene, opType: Int32, limit: Int32, store: seq<Node>, arc: Arc)
    requires |store| <= limit
    ensures var rows := AllRows(scn, opType, limit, store, arc);
      && (rows.None? <==> scn.latitude > -9998.9 && scn.longitude > -9998.9 && 0.0 < scn.distance <= 0.01)
      && (rows.Some? ==> forall n :: n in rows.value <==> n in store && Fits(scn, n, arc))
      && (rows.Some? ==> Sorted(rows.value) && forall n <- rows.value :: multiset(rows.value)[n] == multiset(store)[n])
  {
    hide Find, Params, Generated, Evaluate, SortByKey, Parse, Sorted, Meets;
    KeylessGetSelects(scn, opType, limit, store, arc);
    forall n
      ensures Meets(scn, n, arc) <==> Fits(scn, n, arc)
    {
      MeetsMeans(scn, n, arc);
    }
  }

  /** The scene fits the filter, with the limits the code compares with. */
  predicate Fits(scn: Scene, n: Node, arc: Arc) {
    && (scn.name != "" ==> n.name == Some(scn.name))
    && (scn.region != "" ==> n.region == Some(scn.region))
    && (scn.name != "" || scn.region != "" ==>
         && (scn.isPublic ==> n.isPublic == Some(true))
         && (!scn.isPublic && scn.user != "" ==> n.user == Some(scn.user)))
    && (forall t <- scn.tags :: n.tags.Some? && t in n.tags.value)
    && (scn.latitude > -9998.9 && scn.longitude > -9998.9 && scn.distance > 0.0 ==>
         && n.latitude.Some? && n.longitude.Some?
         && arc(scn.latitude, scn.latitude, scn.longitude, n.latitude.value, n.longitude.value) < scn.distance)
  }

  lemma MeetsMeans(scn: Scene, n: Node, arc: Arc)
    ensures Meets(scn, n, arc) <==> Fits(scn, n, arc)
  {
  }

  /** With both coordinates and a distance above 0.01 the rows are those of the filter without a
      distance that lie within it; a scene without a place is never among them. */
  lemma DistanceFilters(scn: Scene, opType: Int32, limit: Int32, store: seq<Node>, arc: Arc)
    requires |store| <= limit && scn.latitude > -9998.9 && scn.longitude > -9998.9 && scn.distance > 0.01
    ensures var near := AllRows(scn, opType, limit, store, arc);
      var all := AllRows(scn.(distance := 0.0), opType, limit, store, arc);
      && near.Some? && all.Some?
      && forall n :: n in near.value <==>
           && n in all.value && n.latitude.Some? && n.longitude.Some?
           && arc(scn.latitude, scn.latitude, scn.longitude, n.latitude.value, n.longitude.value) < scn.distance
  {
    hide AllRows, Sorted;
    KeylessGetSelectsExactly(scn, opType, limit, store, arc);
    KeylessGetSelectsExactly(scn.(distance := 0.0), opType, limit, store, arc);
  }

  /** Without a distance above 0, or with a coordinate at or below -9998.9, places make no difference. */
  lemma PlaceIsIgnored(scn: Scene, opType: Int32, limit: Int32, store: seq<Node>, arc: Arc)
    requires |store| <= limit && (scn.latitude <= -9998.9 || scn.longitude <= -9998.9 || scn.distance <= 0.0)
    ensures var rows := AllRows(scn, opType, limit, store, arc);
      var bare := AllRows(scn.(latitude := -9999.0, longitude := -9999.0, distance := 0.0), opType, limit, store, arc);
      rows.Some? && bare.Some? && forall n :: n in rows.value <==> n in bare.value
  {
    hide AllRows, Sorted;
    KeylessGetSelectsExactly(scn, opType, limit, store, arc);
    var bare := scn.(latitude := -9999.0, longitude := -9999.0, distance := 0.0);
    KeylessGetSelectsExactly(bare, opType, limit, store, arc);
  }

  lemma KeylessGetSelects(scn: Scene, opType: Int32, limit: Int32, store: seq<Node>, arc: Arc)
    requires |store| <= limit
    ensures var rows := AllRows(scn, opType, limit, store, arc);
      && (rows.None? <==> scn.latitude > -9998.9 && scn.longitude > -9998.9 && 0.0 < scn.distance <= 0.01)
      && (rows.Some? ==> Sorted(rows.value) && forall n :: n in rows.value <==> n in store && Meets(scn, n, arc))
      && (rows.Some? ==> forall n <- rows.value :: multiset(rows.value)[n] == multiset(store)[n])
  {
    hide Find, Params, Generated, Evaluate, SortByKey, Meeting, Meets, Slice, Parse, Unbound, Sorted;
    KeylessGetMeansFilter(scn, opType, 0, limit, store, arc);
    UnboundGetIs(scn);
    var found := Meeting(scn, store, arc);
    MeetingIs(scn, store, arc);
    SortByKeyIs(found);
    SameNodes(found, SortByKey(found));
    SliceOfAll(SortByKey(found), limit);
  }

  lemma SameNodes(a: seq<Node>, b: seq<Node>)
    requires multiset(a) == multiset(b)
    ensures |a| == |b| && forall n :: n in a <==> n in b
  {
    assert |multiset(a)| == |a| && |multiset(b)| == |b|;
    forall n
      ensures n in a <==> n in b
    {
      assert n in multiset(a) <==> n in multiset(b);
    }
  }

  lemma SliceOfAll<T>(xs: seq<T>, limit: nat)
    requires |xs| <= limit
    ensures Slice(xs, 0, limit) == xs
  {
  }

  lemma UnboundGetIs(scn: Scene)
    ensures Unbound("", GetOp, scn) <==>
            scn.latitude > -9998.9 && scn.longitude > -9998.9 && 0.0 < scn.distance <= 0.01
  {
  }

  // ---------------------------------------------------------------- what visibility covers

  /** Without a name or a region the filter's visibility has no effect: private scenes of other users
      are selected like public ones. */
  lemma {:induction false} VisibilityNeedsNameOrRegion(scn: Scene, other: Scene, store: seq<Node>, arc: Arc)
    requires scn.name == "" && scn.region == "" && other == scn.(user := other.user, isPublic := other.isPublic)
    ensures Meeting(scn, store, arc) == Meeting(other, store, arc)
  {
    if store != [] {
      VisibilityNeedsNameOrRegion(scn, other, store[..|store| - 1], arc);
    }
  }
}
