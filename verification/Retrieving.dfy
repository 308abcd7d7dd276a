/** process_retrieve_message, and a client that asks for one page after another. */
module Retrieving {
  import opened Wrappers
  import opened Json
  import opened SceneLists
  import opened Query
  import opened QueryBuilder
  import opened QueryMeaning
  import opened QueryEvaluation

  const SCENE_GET: Int32 := 2
  const NO_ERROR: Int32 := 100
  const NOT_FOUND: Int32 := 102
  const PROCESSING_ERROR: Int32 := 120

  /** A list of the scenes found, to be printed, or an error code. */
  datatype Answer = Found(list: SceneList) | Failed(code: Int32)

  datatype Request = Request(scenes: seq<Scene>, start: Int32, count: Int32, transactionId: string)

  /** assign_scene_properties on a new scene. Whether the scene is public is not read back. */
  function Assigned(n: Node): Scene {
    NEW_SCENE.(
      key := n.key, name := Or(n.name, ""), region := Or(n.region, ""), description := Or(n.description, ""),
      user := Or(n.user, ""), thumbnail := Or(n.thumbnail, ""), latitude := Or(n.latitude, UNSET),
      active := Or(n.active, true), longitude := Or(n.longitude, UNSET), assets := Or(n.assets, []),
      tags := Or(n.tags, []))
  }

  function AllAssigned(ns: seq<Node>): seq<Scene> {
    seq(|ns|, i requires 0 <= i < |ns| => Assigned(ns[i]))
  }

  /** The nodes that all the properties of a MATCH hold of, in stored order. */
  function Matching(ps: seq<Equals>, store: seq<Node>, params: seq<Member>): seq<Node> {
    if store == [] then []
    else
      var k := |store| - 1;
      Matching(ps, store[..k], params) + if forall e <- ps :: EqualsHolds(e, params, store[k]) then [store[k]] else []
  }

  /** A retrieval by key is a MATCH and nothing else. */
  function RunKeyed(ts: seq<Token>, params: seq<Member>, store: seq<Node>): Option<seq<Node>> {
    if ts == [] || ts[0] != MatchNode || !Closed(ts, params) then None
    else
      var m := ParseMatch(ts[1..]);
      if m.None? || m.value.rest != [NodeClose, Return] then None else Some(Matching(m.value.value, store, params))
  }

  function Execute(scn: Scene, req: Request, store: seq<Node>, arc: Arc): Option<seq<Node>> {
    var ts := Generated(scn.key, GetOp, APPEND, scn);
    var params := Params(scn.key, GetOp, scn, req.start, req.count);
    if scn.key != "" then RunKeyed(ts, params, store)
    else
      var q := Parse(ts);
      if q.None? then None else Evaluate(q.value, params, store, arc)
  }

  function KeyedMatch(scn: Scene): seq<Equals> {
    [Equals("key", "inp_key")] + Visibility(scn)
  }

  lemma KeyedTokens(scn: Scene)
    requires scn.key != ""
    ensures Generated(scn.key, GetOp, APPEND, scn) == [MatchNode] + (RenderMatch(KeyedMatch(scn)) + [NodeClose, Return])
  {
    hide RenderEquals;
    var k := Equals("key", "inp_key");
    OneEquals(k);
    if Visibility(scn) == [] {
      assert KeyedMatch(scn) == [k];
    } else {
      var e := Visibility(scn)[0];
      assert KeyedMatch(scn) == [k] + [e];
      RenderOneMore([k], e);
    }
  }

  /** A retrieval by key is never refused; it selects by key and visibility. */
  lemma KeyedSelects(scn: Scene, req: Request, store: seq<Node>, arc: Arc)
    requires scn.key != ""
    ensures Execute(scn, req, store, arc) ==
            Some(Matching(KeyedMatch(scn), store, Params(scn.key, GetOp, scn, req.start, req.count)))
  {
    hide Generated, Params, RenderMatch, ParseMatch, Closed, KeyedMatch, Matching, Unbound;
    KeyedTokens(scn);
    ClosedExactly(scn.key, GetOp, APPEND, scn, req.start, req.count);
    assert !Unbound(scn.key, GetOp, scn) by { KeyedIsBound(scn); }
    ParseRenderMatch(KeyedMatch(scn), [NodeClose, Return]);
    HeadAndTail(MatchNode, RenderMatch(KeyedMatch(scn)) + [NodeClose, Return]);
  }

  lemma KeyedIsBound(scn: Scene)
    requires scn.key != ""
    ensures !Unbound(scn.key, GetOp, scn)
  {
  }

  /** A private retrieval needs a user. */
  predicate MayAsk(req: Request) {
    req.scenes != [] && (req.scenes[0].isPublic || req.scenes[0].user != "")
  }

  /** `port` is the port of a response, which is not initialised. */
  function Retrieve(req: Request, store: seq<Node>, arc: Arc, port: Int32): Answer {
    if !MayAsk(req) then Failed(PROCESSING_ERROR)
    else
      var rows := Execute(req.scenes[0], req, store, arc);
      if rows.None? then Failed(PROCESSING_ERROR)
      else if rows.value == [] then Failed(NOT_FOUND)
      else
        Found(NewList(port).(errCode := NO_ERROR, msgType := SCENE_GET, transactionId := req.transactionId,
                             scenes := AllAssigned(rows.value)))
  }

  method ProcessRetrieve(req: Request, store: seq<Node>, arc: Arc, port: Int32) returns (answer: Answer)
    ensures answer == Retrieve(req, store, arc, port)
  {
    hide Execute, Assigned;
    if |req.scenes| > 0 &&
       (req.scenes[0].isPublic || !(req.scenes[0].user == "" || req.scenes[0].isPublic))
    {
      var results := Execute(req.scenes[0], req, store, arc);
      if results.None? {
        answer := Failed(PROCESSING_ERROR);
      } else {
        var sc := NewList(port);
        sc := sc.(errCode := NO_ERROR);
        sc := sc.(msgType := SCENE_GET);
        sc := sc.(transactionId := req.transactionId);
        var numResults := 0;
        ghost var rows := results.value;
        for i := 0 to |results.value|
          invariant numResults == i
          invariant sc == NewList(port).(errCode := NO_ERROR, msgType := SCENE_GET, transactionId := req.transactionId,
                                         scenes := AllAssigned(rows[..i]))
        {
          numResults := numResults + 1;
          assert AllAssigned(rows[..i + 1]) == AllAssigned(rows[..i]) + [Assigned(rows[i])];
          sc := sc.(scenes := sc.scenes + [Assigned(results.value[i])]);
        }
        assert rows[..|rows|] == rows;
        answer := if numResults > 0 then Found(sc) else Failed(NOT_FOUND);
      }
    } else {
      answer := Failed(PROCESSING_ERROR);
    }
  }

  // ---------------------------------------------------------------- refusals and answers

  /** PROCESSING_ERROR, for every request: exactly when it has no scene, asks for private scenes of no
      user, or is without a key and asks for a negative start or count or gives both coordinates with
      a distance above 0 and at most 0.01. */
  lemma RefusalsAre(req: Request, store: seq<Node>, arc: Arc, port: Int32)
    ensures Retrieve(req, store, arc, port) == Failed(120) <==>
      || req.scenes == []
      || (!req.scenes[0].isPublic && req.scenes[0].user == "")
      || (req.scenes[0].key == "" &&
           (|| req.start < 0 || req.count < 0
            || (req.scenes[0].latitude > -9998.9 && req.scenes[0].longitude > -9998.9
                && 0.0 < req.scenes[0].distance <= 0.01)))
  {
    hide Parse, Generated, Evaluate, Params, Slice, SortByKey, Meeting, Matching, Assigned, RunKeyed, Unbound;
    if req.scenes != [] {
      var scn := req.scenes[0];
      if scn.key == "" {
        KeylessGetMeansFilter(scn, APPEND, req.start, req.count, store, arc);
        UnboundGetIs(scn);
      } else {
        KeyedSelects(scn, req, store, arc);
      }
    }
  }

  /** What is answered, with each field of each scene: what is stored of it, or the default. Whether
      it is public, its distance, transform and devices are not read. */
  lemma AnswerIs(req: Request, store: seq<Node>, arc: Arc, port: Int32)
    requires req.scenes != [] && MayAsk(req)
    ensures var rows := Execute(req.scenes[0], req, store, arc);
      match Retrieve(req, store, arc, port)
      case Failed(code) => (rows.None? && code == 120) || (rows == Some([]) && code == 102)
      case Found(list) =>
        && rows.Some? && rows.value != []
        && list.msgType == 2 && list.errCode == 100 && list.transactionId == req.transactionId
        && list.numRecords == 10 && list.startRecord == 0 && |list.scenes| == |rows.value|
        && forall i :: 0 <= i < |rows.value| ==> ShowsNode(list.scenes[i], rows.value[i])
  {
    hide Execute;
  }

  predicate ShowsNode(s: Scene, n: Node) {
    && s.key == n.key
    && s.name == (if n.name.Some? then n.name.value else "")
    && s.region == (if n.region.Some? then n.region.value else "")
    && s.description == (if n.description.Some? then n.description.value else "")
    && s.user == (if n.user.Some? then n.user.value else "")
    && s.thumbnail == (if n.thumbnail.Some? then n.thumbnail.value else "")
    && s.latitude == (if n.latitude.Some? then n.latitude.value else -9999.0)
    && s.longitude == (if n.longitude.Some? then n.longitude.value else -9999.0)
    && s.active == (if n.active.Some? then n.active.value else true)
    && s.assets == (if n.assets.Some? then n.assets.value else [])
    && s.tags == (if n.tags.Some? then n.tags.value else [])
    && s.isPublic && s.distance == 0.0 && s.transform == None && s.devices == []
  }

  // ---------------------------------------------------------------- pages

  function Min(a: nat, b: nat): nat {
    if a < b then a else b
  }

  /** The pages a client puts together, asking for n rows from `start` on until there is none, when
      no page shows more than `cap`. */
  function Collect<T>(xs: seq<T>, start: nat, n: nat, cap: nat): seq<T>
    requires n > 0
    decreases if start < |xs| then |xs| - start else 0
  {
    var page := Slice(xs, start, n);
    if page == [] then [] else page[..Min(|page|, cap)] + Collect(xs, start + n, n, cap)
  }

  function Requests<T>(xs: seq<T>, start: nat, n: nat): nat
    requires n > 0
    decreases if start < |xs| then |xs| - start else 0
  {
    1 + if Slice(xs, start, n) == [] then 0 else Requests(xs, start + n, n)
  }

  lemma {:induction false} CollectAll<T>(xs: seq<T>, start: nat, n: nat, cap: nat)
    requires n > 0 && start <= |xs| && (n <= cap || |xs| - start <= cap)
    ensures Collect(xs, start, n, cap) == xs[start..]
    decreases |xs| - start
  {
    hide Slice;
    var page := Slice(xs, start, n);
    PageOf(xs, start, n);
    WholePage(page, cap);
    if page != [] {
      if start + n <= |xs| {
        CollectAll(xs, start + n, n, cap);
      } else {
        PageOf(xs, start + n, n);
        assert page + [] == page;
      }
    }
  }

  lemma WholePage<T>(page: seq<T>, cap: nat)
    requires |page| <= cap
    ensures page[..Min(|page|, cap)] == page
  {
  }

  lemma PageOf<T>(xs: seq<T>, start: nat, n: nat)
    requires n > 0
    ensures start >= |xs| ==> Slice(xs, start, n) == []
    ensures start < |xs| < start + n ==> Slice(xs, start, n) == xs[start..]
    ensures start < |xs| && start + n <= |xs| ==>
      |Slice(xs, start, n)| == n && Slice(xs, start, n) + xs[start + n..] == xs[start..]
    ensures start < |xs| ==> |Slice(xs, start, n)| <= n && |Slice(xs, start, n)| <= |xs| - start
    ensures start < |xs| ==> Slice(xs, start, n) != []
  {
  }

  lemma {:induction false} CollectAtMost<T>(xs: seq<T>, start: nat, n: nat, cap: nat)
    requires n > 0
    ensures |Collect(xs, start, n, cap)| <= if start < |xs| then |xs| - start else 0
    decreases if start < |xs| then |xs| - start else 0
  {
    hide Slice;
    PageOf(xs, start, n);
    if Slice(xs, start, n) != [] {
      CollectAtMost(xs, start + n, n, cap);
    }
  }

  /** The pages tile exactly when a page never holds more than it shows. */
  lemma CollectTiles<T>(xs: seq<T>, n: nat, cap: nat)
    requires n > 0
    ensures Collect(xs, 0, n, cap) == xs <==> n <= cap || |xs| <= cap
    ensures |Collect(xs, 0, n, cap)| == |xs| <==> n <= cap || |xs| <= cap
  {
    if n <= cap || |xs| <= cap {
      CollectAll(xs, 0, n, cap);
    } else {
      CollectAtMost(xs, n, n, cap);
    }
  }

  lemma {:induction false} RequestsAre<T>(xs: seq<T>, start: nat, n: nat)
    requires n > 0
    ensures Requests(xs, start, n) == 1 + if start < |xs| then (|xs| - start + n - 1) / n else 0
    decreases if start < |xs| then |xs| - start else 0
  {
    if start < |xs| {
      RequestsAre(xs, start + n, n);
      if start + n < |xs| {
        OneLess(|xs| - start - 1, n);
      } else {
        SmallDivision(|xs| - start - 1, n);
      }
    }
  }

  lemma OneLess(a: nat, n: nat)
    requires n > 0
    ensures (a + n) / n == 1 + a / n
  {
    var q, r := a / n, a % n;
    assert a + n == (q + 1) * n + r;
    Quotient(a + n, n, q + 1, r);
  }

  lemma Quotient(a: int, n: int, q: int, r: int)
    requires n > 0 && 0 <= r < n && a == q * n + r
    ensures a / n == q
  {
    var d := a / n - q;
    assert a == (a / n) * n + a % n;
    assert d * n == r - a % n;
    assert d >= 1 ==> d * n >= n;
    assert d <= -1 ==> d * n <= -1 * n;
  }

  lemma SmallDivision(a: nat, n: nat)
    requires a < n
    ensures (a + n) / n == 1
  {
    Quotient(a + n, n, 1, a);
  }

  // ---------------------------------------------------------------- the pages of a retrieval

  /** The filter alone, asked for the rows from `start` on. */
  function Page(scn: Scene, start: Int32, n: Int32, transactionId: string): Request {
    Request([scn], start, n, transactionId)
  }

  /** A keyless retrieval that may be asked and that the database does not refuse. */
  predicate Askable(scn: Scene) {
    scn.key == "" && (scn.isPublic || scn.user != "") && !Unbound("", GetOp, scn)
  }

  /** What there is to retrieve, in key order. */
  function Matches(scn: Scene, store: seq<Node>, arc: Arc): seq<Node> {
    SortByKey(Meeting(scn, store, arc))
  }

  /** A page is the slice of the matches that was asked for, cut to ten scenes when it is printed; a
      slice without rows is NOT_FOUND. */
  lemma PageIsSlice(scn: Scene, start: Int32, n: Int32, id: string, store: seq<Node>, arc: Arc, port: Int32)
    requires Askable(scn) && start >= 0 && n >= 0 && |store| < 0x8000_0000
    ensures var rows := Slice(Matches(scn, store, arc), start, n);
      var answer := Retrieve(Page(scn, start, n, id), store, arc, port);
      if rows == [] then answer == Failed(NOT_FOUND)
      else
        && answer.Found? && answer.list.scenes == AllAssigned(rows) && Countable(answer.list)
        && ReturnedScenes(answer.list) == AllAssigned(rows[..Min(|rows|, 10)])
  {
    hide Parse, Generated, Evaluate, Slice, Matches, Assigned, Unbound, Params;
    KeylessGetMeansFilter(scn, APPEND, start, n, store, arc);
    MatchesFit(scn, store, arc);
    SliceFits(Matches(scn, store, arc), start, n);
    assert Matches(scn, store, arc) == SortByKey(Meeting(scn, store, arc)) by { MatchesAre(scn, store, arc); }
    var rows := Slice(Matches(scn, store, arc), start, n);
    assert AllAssigned(rows)[..Min(|rows|, 10)] == AllAssigned(rows[..Min(|rows|, 10)]);
  }

  /** A keyless retrieval is refused exactly when its distance is missing or it asks for a negative
      start or count. */
  lemma RefusedExactly(scn: Scene, start: Int32, n: Int32, id: string, store: seq<Node>, arc: Arc, port: Int32)
    requires scn.key == "" && (scn.isPublic || scn.user != "")
    ensures Retrieve(Page(scn, start, n, id), store, arc, port) == Failed(PROCESSING_ERROR) <==>
            Unbound("", GetOp, scn) || start < 0 || n < 0
  {
    hide Parse, Generated, Evaluate, Slice, Assigned, Unbound, Params, SortByKey, Meeting;
    KeylessGetMeansFilter(scn, APPEND, start, n, store, arc);
  }

  lemma MatchesAre(scn: Scene, store: seq<Node>, arc: Arc)
    ensures Matches(scn, store, arc) == SortByKey(Meeting(scn, store, arc))
  {
  }

  lemma {:induction false} MeetingFits(scn: Scene, store: seq<Node>, arc: Arc)
    ensures |Meeting(scn, store, arc)| <= |store|
  {
    hide Meets;
    if store != [] {
      MeetingFits(scn, store[..|store| - 1], arc);
    }
  }

  lemma MatchesFit(scn: Scene, store: seq<Node>, arc: Arc)
    ensures |Matches(scn, store, arc)| <= |store|
  {
    MeetingFits(scn, store, arc);
    SortByKeyIs(Meeting(scn, store, arc));
    hide SortByKey, Meeting;
    assert |multiset(SortByKey(Meeting(scn, store, arc)))| == |multiset(Meeting(scn, store, arc))|;
  }

  lemma SliceFits<T>(xs: seq<T>, start: nat, n: nat)
    ensures |Slice(xs, start, n)| <= |xs| && (start >= |xs| ==> Slice(xs, start, n) == [])
  {
  }

  /** A client that asks for n scenes at a time and stops at NOT_FOUND: what it was shown. */
  function Fetch(scn: Scene, start: Int32, n: Int32, id: string, store: seq<Node>, arc: Arc, port: Int32): seq<Scene>
    requires Askable(scn) && start >= 0 && n > 0 && |store| + n < 0x8000_0000
    decreases if start < |Matches(scn, store, arc)| then |Matches(scn, store, arc)| - start else 0
  {
    PageIsSlice(scn, start, n, id, store, arc, port);
    MatchesFit(scn, store, arc);
    SliceFits(Matches(scn, store, arc), start, n);
    var answer := Retrieve(Page(scn, start, n, id), store, arc, port);
    if answer.Failed? then [] else ReturnedScenes(answer.list) + Fetch(scn, start + n, n, id, store, arc, port)
  }

  lemma {:induction false} FetchCollects(
      scn: Scene, start: Int32, n: Int32, id: string, store: seq<Node>, arc: Arc, port: Int32)
    requires Askable(scn) && start >= 0 && n > 0 && |store| + n < 0x8000_0000
    ensures Fetch(scn, start, n, id, store, arc, port) == AllAssigned(Collect(Matches(scn, store, arc), start, n, 10))
    decreases if start < |Matches(scn, store, arc)| then |Matches(scn, store, arc)| - start else 0
  {
    hide Retrieve, Matches, Assigned, Slice, Askable, ReturnedScenes;
    var ms := Matches(scn, store, arc);
    var rows := Slice(ms, start, n);
    PageIsSlice(scn, start, n, id, store, arc, port);
    MatchesFit(scn, store, arc);
    SliceFits(ms, start, n);
    if rows != [] {
      FetchCollects(scn, start + n, n, id, store, arc, port);
      AllAssignedConcat(rows[..Min(|rows|, 10)], Collect(ms, start + n, n, 10));
    }
  }

  lemma AllAssignedConcat(a: seq<Node>, b: seq<Node>)
    ensures AllAssigned(a + b) == AllAssigned(a) + AllAssigned(b)
  {
  }

  /** For every filter, store and page size: the client is shown every match once, in key order,
      exactly when the page size is at most ten or there are at most ten matches; and it always makes
      one request more than there are pages. */
  lemma PagesTile(scn: Scene, n: Int32, id: string, store: seq<Node>, arc: Arc, port: Int32)
    requires Askable(scn) && n > 0 && |store| + n < 0x8000_0000
    ensures var ms := Matches(scn, store, arc); var shown := Fetch(scn, 0, n, id, store, arc, port);
      && (shown == AllAssigned(ms) <==> n <= 10 || |ms| <= 10)
      && (shown == AllAssigned(ms) <==> |shown| == |ms|)
      && Requests(ms, 0, n) == (|ms| + n - 1) / n + 1
      && Sorted(ms) && multiset(ms) == multiset(Meeting(scn, store, arc))
  {
    hide Fetch, Meeting, SortByKey, Askable, Sorted, Collect, Requests, AllAssigned;
    var ms := Matches(scn, store, arc);
    FetchCollects(scn, 0, n, id, store, arc, port);
    CollectTiles(ms, n, 10);
    RequestsAre(ms, 0, n);
    SortByKeyIs(Meeting(scn, store, arc));
    AllAssignedLength(ms);
    AllAssignedLength(Collect(ms, 0, n, 10));
  }

  lemma AllAssignedLength(ns: seq<Node>)
    ensures |AllAssigned(ns)| == |ns|
  {
  }

  ghost predicate KeysTell(a: seq<Node>) {
    forall i, j :: 0 <= i < |a| && 0 <= j < |a| && a[i].key == a[j].key ==> a[i] == a[j]
  }

  lemma SameHead(a: seq<Node>, b: seq<Node>)
    requires a != [] && Sorted(a) && Sorted(b) && multiset(a) == multiset(b) && KeysTell(a)
    ensures b != [] && a[0] == b[0]
  {
    hide Upto;
    assert a[0] in multiset(b);
    assert b[0] in multiset(b) && b[0] in multiset(a);
    var i :| 0 <= i < |a| && a[i] == b[0];
    var j :| 0 <= j < |b| && b[j] == a[0];
    UptoTotal(a[0].key, a[0].key);
    UptoTotal(b[0].key, b[0].key);
    assert Upto(a[0].key, a[i].key) && Upto(b[0].key, b[j].key);
    UptoAntisymmetric(a[0].key, b[0].key);
  }

  /** With distinct keys there is only one key order, whatever order the database sorts ties in. */
  lemma {:induction false} KeyOrderIsUnique(a: seq<Node>, b: seq<Node>)
    requires Sorted(a) && Sorted(b) && multiset(a) == multiset(b) && KeysTell(a)
    ensures a == b
  {
    hide Upto;
    if a == [] {
      assert |multiset(b)| == |b|;
    } else {
      SameHead(a, b);
      SameTail(a, b);
      KeyOrderIsUnique(a[1..], b[1..]);
      assert a == [a[0]] + a[1..] && b == [b[0]] + b[1..];
    }
  }

  lemma SameTail(a: seq<Node>, b: seq<Node>)
    requires a != [] && b != [] && a[0] == b[0] && multiset(a) == multiset(b)
    ensures multiset(a[1..]) == multiset(b[1..])
  {
    assert a == [a[0]] + a[1..] && b == [b[0]] + b[1..];
    assert multiset(a[1..]) == multiset(a) - multiset{a[0]};
    assert multiset(b[1..]) == multiset(b) - multiset{b[0]};
  }
}
