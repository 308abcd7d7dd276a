/** The messages that create, change and delete scenes, against the scenes the database stores. */
module StoredScenes {
  import opened Wrappers
  import opened Json
  import opened SceneLists
  import opened Query
  import opened QueryBuilder
  import opened QueryMeaning
  import opened QueryEvaluation
  import opened Retrieving
  import opened QueryEffects

  const INSUFF_DATA_ERROR: Int32 := 122

  // ---------------------------------------------------------------- what the database does

  /** The clauses are run on every node that the pattern matches. */
  function SetAll(ps: seq<Equals>, clauses: seq<Token>, params: seq<Member>, store: seq<Node>): Option<seq<Node>> {
    if store == [] then Some([])
    else
      var k := |store| - 1;
      var before := SetAll(ps, clauses, params, store[..k]);
      var n := if MatchesAll(ps, params, store[k]) then RunClauses(clauses, params, store[k]) else Some(store[k]);
      if before.None? || n.None? then None else Some(before.value + [n.value])
  }

  predicate MatchesAll(ps: seq<Equals>, params: seq<Member>, n: Node) {
    forall e <- ps :: EqualsHolds(e, params, n)
  }

  function DeleteAll(ps: seq<Equals>, params: seq<Member>, store: seq<Node>): seq<Node> {
    if store == [] then []
    else
      var k := |store| - 1;
      DeleteAll(ps, params, store[..k]) + if MatchesAll(ps, params, store[k]) then [] else [store[k]]
  }

  /** The scenes after a query, or nothing when the database refuses it: it is no query of the three
      kinds, or a placeholder is unbound. */
  function RunOn(ts: seq<Token>, params: seq<Member>, store: seq<Node>): Option<seq<Node>> {
    var n := |ts|;
    if n < 2 || !Closed(ts, params) || ts[n - 1] != Return then None
    else if ts[0] == CreateNode then
      if n < 5 || ts[1] != MapOpen || ts[n - 3..] != [MapClose, NodeClose, Return] then None
      else
        var made := RunClauses(ts[2..n - 3], params, BLANK);
        if made.None? then None else Some(store + [made.value])
    else if ts[0] == MatchNode then
      var m := ParseMatch(ts[1..]);
      if m.None? then None else RunMatched(m.value.value, m.value.rest, params, store)
    else None
  }

  function RunMatched(ps: seq<Equals>, rest: seq<Token>, params: seq<Member>, store: seq<Node>): Option<seq<Node>> {
    var n := |rest|;
    if n < 3 || rest[0] != NodeClose then None
    else if rest[1] == SetWord then SetAll(ps, rest[2..n - 1], params, store)
    else if rest == [NodeClose, Delete, Return] then Some(DeleteAll(ps, params, store))
    else None
  }

  // ---------------------------------------------------------------- what it is meant to be

  function UpdatedAll(key: string, scn: Scene, opType: Int32, store: seq<Node>): seq<Node> {
    seq(|store|, i requires 0 <= i < |store| =>
      if store[i].key == key then Updated(store[i], scn, opType) else store[i])
  }

  function WithoutKey(key: string, store: seq<Node>): seq<Node> {
    if store == [] then []
    else
      var k := |store| - 1;
      WithoutKey(key, store[..k]) + if store[k].key == key then [] else [store[k]]
  }

  const BY_KEY := [Equals("key", "inp_key")]

  lemma ByKeyMatches(key: string, p: seq<Member>, n: Node)
    requires Find(p, "inp_key") == Some(Str(key))
    ensures MatchesAll(BY_KEY, p, n) <==> n.key == key
  {
    hide Find;
    assert Equals("key", "inp_key") in BY_KEY;
  }

  lemma {:induction false} SetAllIs(key: string, opType: Int32, scn: Scene, p: seq<Member>, store: seq<Node>)
    requires Holds(key, scn, p) && PlacesGiven(scn) && key != ""
    ensures SetAll(BY_KEY, UpdateClauses(scn, opType), p, store) == Some(UpdatedAll(key, scn, opType, store))
  {
    hide MatchesAll, RunClauses, UpdateClauses, Updated, Find;
    if store != [] {
      var k := |store| - 1;
      SetAllIs(key, opType, scn, p, store[..k]);
      ByKeyMatches(key, p, store[k]);
      UpdateRuns(key, opType, scn, p, store[k]);
      var n := if store[k].key == key then Updated(store[k], scn, opType) else store[k];
      assert UpdatedAll(key, scn, opType, store) == UpdatedAll(key, scn, opType, store[..k]) + [n];
    } else {
      assert UpdatedAll(key, scn, opType, store) == [];
    }
  }

  lemma {:induction false} DeleteAllIs(key: string, p: seq<Member>, store: seq<Node>)
    requires Find(p, "inp_key") == Some(Str(key))
    ensures DeleteAll(BY_KEY, p, store) == WithoutKey(key, store)
  {
    hide MatchesAll, Find;
    if store != [] {
      DeleteAllIs(key, p, store[..|store| - 1]);
      ByKeyMatches(key, p, store[|store| - 1]);
    }
  }

  // ---------------------------------------------------------------- the three queries

  /** Two stretches of tokens around a middle one. */
  lemma Middle(a: seq<Token>, mid: seq<Token>, b: seq<Token>)
    ensures var ts := a + mid + b;
      ts[..|a|] == a && ts[|a|..|ts| - |b|] == mid && ts[|ts| - |b|..] == b && ts[|a|..] == mid + b
  {
  }

  /** A CREATE is refused exactly when a latitude or longitude below -9999 leaves a placeholder
      unbound; otherwise there is one scene more. */
  lemma CreateOnStore(key: string, opType: Int32, scn: Scene, store: seq<Node>)
    requires key != ""
    ensures RunOn(Generated(key, CreateOp, opType, scn), Params(key, CreateOp, scn, 0, 0), store) ==
            if Unbound(key, CreateOp, scn) then None else Some(store + [Created(key, scn)])
  {
    hide RunClauses, Params, Closed, Created, CreatingFields, Keyed;
    var p := Params(key, CreateOp, scn, 0, 0);
    var ts := Generated(key, CreateOp, opType, scn);
    ClosedExactly(key, CreateOp, opType, scn, 0, 0);
    if !Unbound(key, CreateOp, scn) {
      CreateStores(key, opType, scn, 0, 0);
      var clauses := CreatingFields(CREATE_START, scn);
      assert ts == [CreateNode, MapOpen] + clauses + [MapClose, NodeClose, Return];
      Middle([CreateNode, MapOpen], clauses, [MapClose, NodeClose, Return]);
      assert ts[0] == CreateNode && ts[1] == MapOpen;
    }
  }

  /** The keyed pattern of an UPDATE or a DELETE is read back, whatever follows it. */
  lemma KeyedIsRead(rest: seq<Token>)
    requires rest != [] && rest[0] != MapOpen
    ensures ParseMatch([MapOpen, Prop("key"), Param("inp_key"), MapClose] + rest) == Some(Parsed(BY_KEY, rest))
  {
    hide ParseMatch;
    assert RenderMatch(BY_KEY) == [MapOpen, Prop("key"), Param("inp_key"), MapClose];
    ParseRenderMatch(BY_KEY, rest);
  }

  /** An UPDATE is refused in the same case; otherwise exactly the scenes with its key change. */
  lemma UpdateOnStore(key: string, opType: Int32, scn: Scene, store: seq<Node>)
    requires key != ""
    ensures RunOn(Generated(key, UpdateOp, opType, scn), Params(key, UpdateOp, scn, 0, 0), store) ==
            if Unbound(key, UpdateOp, scn) then None else Some(UpdatedAll(key, scn, opType, store))
  {
    hide RunClauses, Params, Closed, UpdateClauses, Generated, SetAll, ParseMatch, UpdatedAll, Find;
    var p := Params(key, UpdateOp, scn, 0, 0);
    var ts := Generated(key, UpdateOp, opType, scn);
    ClosedExactly(key, UpdateOp, opType, scn, 0, 0);
    UpdateTokens(key, opType, scn);
    var clauses := UpdateClauses(scn, opType);
    var rest := [NodeClose, SetWord] + clauses + [Return];
    assert ts == [MatchNode] + ([MapOpen, Prop("key"), Param("inp_key"), MapClose] + rest);
    HeadAndTail(MatchNode, [MapOpen, Prop("key"), Param("inp_key"), MapClose] + rest);
    assert ts[|ts| - 1] == Return;
    KeyedIsRead(rest);
    Middle([NodeClose, SetWord], clauses, [Return]);
    if !Unbound(key, UpdateOp, scn) {
      ParamsHold(key, UpdateOp, scn, 0, 0);
      SetAllIs(key, opType, scn, p, store);
    }
  }

  /** The parameters of a DELETE: it is made without a scene. */
  function KeyParam(key: string): seq<Member> {
    [Member("inp_key", Str(key))]
  }

  const DELETE_QUERY := [MatchNode, MapOpen, Prop("key"), Param("inp_key"), MapClose, NodeClose, Delete, Return]

  /** The text of a DELETE is written out; it is what the builder would generate. */
  lemma DeleteTokens(key: string, opType: Int32, scn: Scene)
    requires key != ""
    ensures Generated(key, DeleteOp, opType, scn) == DELETE_QUERY
  {
  }

  lemma KeyFound(key: string)
    ensures Find(KeyParam(key), "inp_key") == Some(Str(key)) && Bound(KeyParam(key), "inp_key")
  {
    assert KeyParam(key)[..0] == [];
  }

  /** A DELETE is never refused; exactly the scenes with its key go. */
  lemma DeleteOnStore(key: string, store: seq<Node>)
    ensures RunOn(DELETE_QUERY, KeyParam(key), store) == Some(WithoutKey(key, store))
  {
    hide Find, ParseMatch, WithoutKey, DeleteAll, Bound;
    KeyFound(key);
    KeyedIsRead([NodeClose, Delete, Return]);
    assert DELETE_QUERY[1..] == [MapOpen, Prop("key"), Param("inp_key"), MapClose] + [NodeClose, Delete, Return];
    DeleteAllIs(key, KeyParam(key), store);
  }

  /** An UPDATE without a key is no query. */
  lemma KeylessUpdateIsRefused(opType: Int32, scn: Scene, store: seq<Node>)
    ensures RunOn(Generated("", UpdateOp, opType, scn), Params("", UpdateOp, scn, 0, 0), store) == None
  {
    hide RunClauses, Params, Closed, Changes, UpdatingFields, Find;
    assert Keyed("", UpdateOp, scn) == [MatchNode] by { NoKey(UpdateOp, scn); }
    var head := [MatchNode, MapClose];
    var fields := SET_START[1..];
    assert [MatchNode] + SET_START == head + fields;
    UpdatingShift(head, fields, scn);
    var f := UpdatingFields(fields, scn);
    var a, t := Changes("assets", "inp_assets", |scn.assets|, opType), Changes("tags", "inp_tags", |scn.tags|, opType);
    var ts := Generated("", UpdateOp, opType, scn);
    assert ts == head + (f + a + t + [Return]);
    assert ts[0] == MatchNode && ts[1..][0] == MapClose;
  }

  // ---------------------------------------------------------------- the messages

  /** An error code and the string that is returned; setting an error clears it. */
  datatype Reply = Reply(code: Int32, text: string)

  /** `newId` is the key that is generated, empty when that fails. */
  method ProcessCreate(scenes: seq<Scene>, newId: string, store: seq<Node>) returns (r: Reply, after: seq<Node>)
    ensures scenes == [] ==> r == Reply(120, "") && after == store
    ensures scenes != [] ==>
      var key := if scenes[0].key == "" then newId else scenes[0].key;
      if key == "" || scenes[0].latitude < -9999.0 || scenes[0].longitude < -9999.0
      then r == Reply(120, "") && after == store
      else r == Reply(100, key) && after == store + [Created(key, scenes[0])]
  {
    hide RunOn, Generated, Params, Created;
    r, after := Reply(NO_ERROR, ""), store;
    if |scenes| > 0 {
      var id := scenes[0].key;
      if id == "" {
        id := newId;
        if id == "" {
          return Reply(PROCESSING_ERROR, ""), store;
        }
      }
      r := r.(text := id);
      var results := RunOn(Generated(id, CreateOp, APPEND, scenes[0]), Params(id, CreateOp, scenes[0], 0, 0), store);
      CreateOnStore(id, APPEND, scenes[0], store);
      if results.None? {
        r := Reply(PROCESSING_ERROR, "");
      } else {
        after := results.value;
      }
      return;
    }
    r := Reply(PROCESSING_ERROR, "");
  }

  /** An update of a key that no scene has is answered without error. */
  method ProcessUpdate(scenes: seq<Scene>, opType: Int32, store: seq<Node>) returns (r: Reply, after: seq<Node>)
    ensures scenes == [] ==> r == Reply(120, "") && after == store
    ensures scenes != [] && scenes[0].key != "" ==>
      if scenes[0].latitude < -9999.0 || scenes[0].longitude < -9999.0 then r == Reply(120, "") && after == store
      else r == Reply(100, scenes[0].key) && after == UpdatedAll(scenes[0].key, scenes[0], opType, store)
    ensures scenes != [] && scenes[0].key == "" ==>
      var scn := scenes[0];
      && after == store
      && r == Reply(if scn.name == "" && scn.latitude == -9999.0 && scn.longitude == -9999.0 && scn.region == "" &&
                       scn.description == "" && scn.user == "" && scn.thumbnail == "" && scn.tags == [] &&
                       scn.assets == []
                    then 122 else 120, "")
  {
    hide RunOn, Generated, Params, UpdatedAll;
    r, after := Reply(NO_ERROR, ""), store;
    if |scenes| > 0 {
      var scn := scenes[0];
      if scn.name == "" && scn.latitude == UNSET && scn.longitude == UNSET && scn.key == "" && scn.region == "" &&
         scn.description == "" && scn.user == "" && scn.thumbnail == "" && |scn.tags| == 0 && |scn.assets| == 0 {
        r := Reply(INSUFF_DATA_ERROR, "");
      } else {
        var results := RunOn(Generated(scn.key, UpdateOp, opType, scn), Params(scn.key, UpdateOp, scn, 0, 0), store);
        if scn.key == "" {
          KeylessUpdateIsRefused(opType, scn, store);
        } else {
          UpdateOnStore(scn.key, opType, scn, store);
        }
        if results.None? {
          r := Reply(PROCESSING_ERROR, "");
        } else {
          r, after := r.(text := scn.key), results.value;
        }
      }
      return;
    }
    r := Reply(PROCESSING_ERROR, "");
  }

  /** So is a delete. */
  method ProcessDelete(scenes: seq<Scene>, store: seq<Node>) returns (r: Reply, after: seq<Node>)
    ensures scenes == [] ==> r == Reply(120, "") && after == store
    ensures scenes != [] ==>
      if scenes[0].key == "" then r == Reply(122, "") && after == store
      else r == Reply(100, scenes[0].key) && after == WithoutKey(scenes[0].key, store)
  {
    hide RunOn, WithoutKey;
    r, after := Reply(NO_ERROR, ""), store;
    if |scenes| > 0 {
      if scenes[0].key == "" {
        r := Reply(INSUFF_DATA_ERROR, "");
      } else {
        var results := RunOn(DELETE_QUERY, KeyParam(scenes[0].key), store);
        DeleteOnStore(scenes[0].key, store);
        if results.None? {
          r := Reply(PROCESSING_ERROR, "");
        } else {
          r, after := r.(text := scenes[0].key), results.value;
        }
      }
      return;
    }
    r := Reply(PROCESSING_ERROR, "");
  }

  // ---------------------------------------------------------------- one message after another

  lemma {:induction false} WithoutKeyIs(key: string, store: seq<Node>)
    ensures forall n :: n in WithoutKey(key, store) <==> n in store && n.key != key
  {
    if store != [] {
      WithoutKeyIs(key, store[..|store| - 1]);
      assert store == store[..|store| - 1] + [store[|store| - 1]];
    }
  }

  lemma WithoutOneMore(key: string, store: seq<Node>)
    requires store != [] && store[|store| - 1].key != key
    ensures WithoutKey(key, store) == WithoutKey(key, store[..|store| - 1]) + [store[|store| - 1]]
  {
  }

  lemma FrontAndLast<T>(s: seq<T>)
    requires s != []
    ensures s[..|s| - 1] + [s[|s| - 1]] == s
  {
  }

  lemma {:induction false} WithoutNone(key: string, store: seq<Node>)
    requires forall n <- store :: n.key != key
    ensures WithoutKey(key, store) == store
  {
    if store != [] {
      var k := |store| - 1;
      hide WithoutKey;
      WithoutNone(key, store[..k]);
      WithoutOneMore(key, store);
      FrontAndLast(store);
    }
  }

  /** A delete undoes a create exactly when the key was new. */
  lemma DeleteUndoesCreate(key: string, scn: Scene, store: seq<Node>)
    ensures WithoutKey(key, store + [Created(key, scn)]) == store <==> forall n <- store :: n.key != key
  {
    hide Created;
    CreatedKey(key, scn);
    assert (store + [Created(key, scn)])[..|store|] == store;
    WithoutKeyIs(key, store);
    if forall n <- store :: n.key != key {
      WithoutNone(key, store);
    }
  }

  /** Deleting what was updated is deleting. */
  lemma {:induction false} DeleteForgetsUpdate(key: string, scn: Scene, opType: Int32, store: seq<Node>)
    ensures WithoutKey(key, UpdatedAll(key, scn, opType, store)) == WithoutKey(key, store)
  {
    hide Updated;
    if store != [] {
      var k := |store| - 1;
      DeleteForgetsUpdate(key, scn, opType, store[..k]);
      UpdatedKey(store[k], scn, opType);
      assert UpdatedAll(key, scn, opType, store)[..k] == UpdatedAll(key, scn, opType, store[..k]);
    }
  }

  lemma UpdatedKey(n: Node, scn: Scene, opType: Int32)
    ensures Updated(n, scn, opType).key == n.key
  {
  }

  /** What a keyed retrieval finds: the scenes with its key that it may see. */
  lemma {:induction false} KeyedFinds(f: Scene, store: seq<Node>, p: seq<Member>)
    requires Holds(f.key, f, p) && f.key != ""
    ensures forall n :: n in Matching(KeyedMatch(f), store, p) <==> n in store && n.key == f.key && Visible(f, n)
    ensures |Matching(KeyedMatch(f), store, p)| <= |store|
  {
    hide Find, Visible, Visibility;
    if store != [] {
      var k := |store| - 1;
      KeyedFinds(f, store[..k], p);
      KeyedFindsOne(f, store[k], p);
      assert store == store[..k] + [store[k]];
    }
  }

  lemma KeyedFindsOne(f: Scene, n: Node, p: seq<Member>)
    requires Holds(f.key, f, p) && f.key != ""
    ensures (forall e <- KeyedMatch(f) :: EqualsHolds(e, p, n)) <==> n.key == f.key && Visible(f, n)
  {
    hide Find, Visible, Visibility;
    VisibleMeans(f, p, n);
    var k := Equals("key", "inp_key");
    assert KeyedMatch(f) == [k] + Visibility(f);
    assert EqualsHolds(k, p, n) <==> n.key == f.key;
  }

  /** The same of the generated query, written out: the scenes with the key, of those the public ones
      for a public retrieval and the user's own for a private one. */
  lemma KeyedGetSelectsExactly(f: Scene, req: Request, store: seq<Node>, arc: Arc)
    requires f.key != ""
    ensures var rows := Execute(f, req, store, arc);
      && rows.Some?
      && forall n :: n in rows.value <==>
           && n in store && n.key == f.key
           && (f.isPublic ==> n.isPublic == Some(true))
           && (!f.isPublic && f.user != "" ==> n.user == Some(f.user))
  {
    hide Find, Params, Execute, Matching, KeyedMatch, Holds;
    var p := Params(f.key, GetOp, f, req.start, req.count);
    ParamsHold(f.key, GetOp, f, req.start, req.count);
    KeyedSelects(f, req, store, arc);
    KeyedFinds(f, store, p);
  }

  /** Create, update and delete under one key leave what retrievals under another key find. */
  lemma OtherKeysUnaffected(f: Scene, key: string, scn: Scene, opType: Int32, store: seq<Node>, p: seq<Member>)
    requires Holds(f.key, f, p) && f.key != "" && f.key != key
    ensures Matching(KeyedMatch(f), store + [Created(key, scn)], p) == Matching(KeyedMatch(f), store, p)
    ensures Matching(KeyedMatch(f), UpdatedAll(key, scn, opType, store), p) == Matching(KeyedMatch(f), store, p)
    ensures Matching(KeyedMatch(f), WithoutKey(key, store), p) == Matching(KeyedMatch(f), store, p)
  {
    hide Find, Visible, KeyedMatch, Created, Updated, EqualsHolds;
    var n := Created(key, scn);
    CreatedKey(key, scn);
    KeyedFindsOne(f, n, p);
    assert (store + [n])[..|store|] == store;
    UpdateUnseen(f, key, scn, opType, store, p);
    DeleteUnseen(f, key, store, p);
  }

  lemma {:induction false} UpdateUnseen(f: Scene, key: string, scn: Scene, opType: Int32, store: seq<Node>,
                                        p: seq<Member>)
    requires Holds(f.key, f, p) && f.key != "" && f.key != key
    ensures Matching(KeyedMatch(f), UpdatedAll(key, scn, opType, store), p) == Matching(KeyedMatch(f), store, p)
  {
    hide Find, Visible, KeyedMatch, Updated, EqualsHolds;
    if store != [] {
      var k := |store| - 1;
      UpdateUnseen(f, key, scn, opType, store[..k], p);
      var all := UpdatedAll(key, scn, opType, store);
      assert all[..k] == UpdatedAll(key, scn, opType, store[..k]);
      UpdatedKey(store[k], scn, opType);
      KeyedFindsOne(f, store[k], p);
      KeyedFindsOne(f, all[k], p);
    }
  }

  lemma {:induction false} DeleteUnseen(f: Scene, key: string, store: seq<Node>, p: seq<Member>)
    requires Holds(f.key, f, p) && f.key != "" && f.key != key
    ensures Matching(KeyedMatch(f), WithoutKey(key, store), p) == Matching(KeyedMatch(f), store, p)
  {
    hide Find, Visible, KeyedMatch, EqualsHolds;
    if store != [] {
      var k := |store| - 1;
      DeleteUnseen(f, key, store[..k], p);
      KeyedFindsOne(f, store[k], p);
      var left := WithoutKey(key, store[..k]);
      var more := left + [store[k]];
      assert more[..|more| - 1] == left && more[|more| - 1] == store[k];
      assert WithoutKey(key, store) == if store[k].key == key then left + [] else more;
      assert left + [] == left;
    }
  }

  /** A scene that a retrieval under its key may see when it is updated is what that retrieval then
      finds, with the update made; any other scene of that key stays unseen. */
  lemma UpdateThenGet(f: Scene, scn: Scene, opType: Int32, store: seq<Node>, p: seq<Member>)
    requires Holds(f.key, f, p) && f.key != ""
    ensures forall m :: m in Matching(KeyedMatch(f), UpdatedAll(f.key, scn, opType, store), p) <==>
              exists n <- store :: n.key == f.key && m == Updated(n, scn, opType) && Visible(f, m)
  {
    hide Find, Visible, KeyedMatch, Updated, EqualsHolds, Matching;
    var all := UpdatedAll(f.key, scn, opType, store);
    KeyedFinds(f, all, p);
    forall m
      ensures m in all && m.key == f.key <==> exists n <- store :: n.key == f.key && m == Updated(n, scn, opType)
    {
      if m in all && m.key == f.key {
        var i :| 0 <= i < |all| && all[i] == m;
        assert store[i] in store;
      }
      if n :| n in store && n.key == f.key && m == Updated(n, scn, opType) {
        var i :| 0 <= i < |store| && store[i] == n;
        UpdatedKey(n, scn, opType);
        assert all[i] == m;
      }
    }
  }

  lemma NothingIn(rows: seq<Node>)
    ensures (forall n :: n !in rows) <==> rows == []
  {
    if rows != [] {
      assert rows[0] in rows;
    }
  }

  /** After a delete a retrieval under its key finds nothing. */
  lemma DeletedIsGone(f: Scene, req: Request, store: seq<Node>, arc: Arc, port: Int32)
    requires f.key != "" && req.scenes != [] && req.scenes[0] == f && MayAsk(req)
    ensures Retrieve(req, WithoutKey(f.key, store), arc, port) == Failed(NOT_FOUND)
  {
    hide Find, Params, KeyedMatch, Execute, Matching, WithoutKey, Holds, Visible;
    var p := Params(f.key, GetOp, f, req.start, req.count);
    ParamsHold(f.key, GetOp, f, req.start, req.count);
    WithoutKeyIs(f.key, store);
    var left := WithoutKey(f.key, store);
    KeyedFinds(f, left, p);
    KeyedSelects(f, req, left, arc);
    NothingIn(Matching(KeyedMatch(f), left, p));
  }
}
