/** What a generated query means: which placeholders have a value, and which scenes it selects. */
module QueryMeaning {
  import opened Wrappers
  import opened Json
  import opened SceneLists
  import opened Query
  import opened QueryBuilder

  // ---------------------------------------------------------------- placeholders

  predicate Bound(params: seq<Member>, name: string) {
    Find(params, name).Some?
  }

  /** Every placeholder has a value; the database refuses a query that is not closed. */
  predicate Closed(ts: seq<Token>, params: seq<Member>) {
    forall t <- ts :: t.Param? ==> Bound(params, t.name)
  }

  lemma ClosedConcat(a: seq<Token>, b: seq<Token>, params: seq<Member>)
    ensures Closed(a + b, params) <==> Closed(a, params) && Closed(b, params)
  {
    hide Bound;
    if Closed(a + b, params) {
      assert forall t <- a :: t in a + b;
      assert forall t <- b :: t in a + b;
    }
  }

  /** A clause that is added only when something is given. */
  lemma ClosedWhen(before: seq<Token>, c: bool, ts: seq<Token>, params: seq<Member>)
    ensures Closed(before + When(c, ts), params) <==> Closed(before, params) && (c ==> Closed(ts, params))
  {
    ClosedConcat(before, When(c, ts), params);
  }

  lemma ClosedMore(prop: string, name: string, params: seq<Member>)
    ensures Closed(More(prop, name), params) <==> Bound(params, name)
    ensures Closed(Set(prop, name), params) <==> Bound(params, name)
  {
    hide Bound;
    assert Param(name) in More(prop, name) && Param(name) in Set(prop, name);
  }

  lemma ParamAt(key: string, op: Op, scn: Scene, skip: Int32, limit: Int32, i: nat)
    requires i < |PARAM_NAMES|
    ensures Find(Params(key, op, scn, skip, limit), PARAM_NAMES[i]) == ParamFields(key, op, scn, skip, limit)[i].value
  {
    hide Keep, Find, ParamFields;
    ParamsNamed(key, op, scn, skip, limit);
    FindField(ParamFields(key, op, scn, skip, limit), PARAM_NAMES, i);
  }

  /** Which parameters there are, the common ones. */
  lemma BoundCommon(key: string, op: Op, scn: Scene, skip: Int32, limit: Int32)
    ensures var p := Params(key, op, scn, skip, limit);
      && (Bound(p, "inp_key") <==> key != "") && Bound(p, "inp_active") && Bound(p, "inp_public")
      && (Bound(p, "inp_name") <==> scn.name != "") && (Bound(p, "inp_region") <==> scn.region != "")
      && (Bound(p, "inp_user") <==> scn.user != "" || scn.isPublic)
  {
    hide Find, Params, Texts, Above;
    ParamAt(key, op, scn, skip, limit, 0);
    ParamAt(key, op, scn, skip, limit, 3);
    ParamAt(key, op, scn, skip, limit, 4);
    ParamAt(key, op, scn, skip, limit, 5);
    ParamAt(key, op, scn, skip, limit, 9);
    ParamAt(key, op, scn, skip, limit, 11);
  }

  lemma BoundOther(key: string, op: Op, scn: Scene, skip: Int32, limit: Int32)
    ensures var p := Params(key, op, scn, skip, limit);
      && (Bound(p, "inp_lat") <==> scn.latitude > UNSET) && (Bound(p, "inp_long") <==> scn.longitude > UNSET)
      && (Bound(p, "inp_description") <==> scn.description != "")
      && (Bound(p, "inp_thumbnail") <==> scn.thumbnail != "")
      && (Bound(p, "inp_assets") <==> scn.assets != []) && (Bound(p, "inp_tags") <==> scn.tags != [])
  {
    hide Find, Params, Texts;
    ParamAt(key, op, scn, skip, limit, 6);
    ParamAt(key, op, scn, skip, limit, 7);
    ParamAt(key, op, scn, skip, limit, 10);
    ParamAt(key, op, scn, skip, limit, 12);
    ParamAt(key, op, scn, skip, limit, 13);
    ParamAt(key, op, scn, skip, limit, 14);
  }

  lemma BoundPaging(key: string, op: Op, scn: Scene, skip: Int32, limit: Int32)
    ensures var p := Params(key, op, scn, skip, limit); var keyless := key == "" && op == GetOp;
      && Find(p, "inp_skip") == (if keyless then Some(Num(skip)) else None)
      && Find(p, "inp_limit") == (if keyless then Some(Num(limit)) else None)
      && Find(p, "inp_distance") == (if keyless && scn.distance > 0.01 then Some(Real(scn.distance)) else None)
  {
    hide Find, Params, Texts, Above;
    ParamAt(key, op, scn, skip, limit, 1);
    ParamAt(key, op, scn, skip, limit, 2);
    ParamAt(key, op, scn, skip, limit, 8);
  }

  /** The placeholders without a value: coordinates below -9999 that are written but not given, and
      the distance of a keyless retrieval when it is not above 0.01. */
  predicate Unbound(key: string, op: Op, scn: Scene) {
    || ((op == CreateOp || op == UpdateOp) && (scn.latitude < UNSET || scn.longitude < UNSET))
    || (op == GetOp && key == "" && HasDistance(scn) && scn.distance <= 0.01)
  }

  lemma KeyedClosed(key: string, op: Op, scn: Scene, params: seq<Member>)
    requires Bound(params, "inp_key") <==> key != ""
    requires Bound(params, "inp_public") && (Bound(params, "inp_user") <==> scn.user != "" || scn.isPublic)
    ensures Closed(Keyed(key, op, scn), params)
  {
    hide Bound, More;
    ClosedMore("user", "inp_user", params);
    ClosedMore("public", "inp_public", params);
    var a := Start(op) + When(key != "", [MapOpen, Prop("key"), Param("inp_key")]);
    ClosedWhen(Start(op), key != "", [MapOpen, Prop("key"), Param("inp_key")], params);
    var c := key != "" && op == GetOp && scn.user != "" && !scn.isPublic;
    ClosedWhen(a, c, More("user", "inp_user"), params);
    var b := a + When(c, More("user", "inp_user"));
    var e := key != "" && op == GetOp && scn.isPublic;
    ClosedWhen(b, e, More("public", "inp_public"), params);
    ClosedWhen(b + When(e, More("public", "inp_public")), key != "" && op == GetOp, [MapClose, NodeClose], params);
  }

  lemma AddMore(before: seq<Token>, c: bool, prop: string, name: string, params: seq<Member>)
    ensures Closed(before + When(c, More(prop, name)), params) <==>
            Closed(before, params) && (c ==> Bound(params, name))
  {
    hide Bound, Closed, More, When;
    ClosedMore(prop, name, params);
    ClosedWhen(before, c, More(prop, name), params);
  }

  lemma AddSet(before: seq<Token>, c: bool, prop: string, name: string, params: seq<Member>)
    ensures Closed(before + When(c, Set(prop, name)), params) <==>
            Closed(before, params) && (c ==> Bound(params, name))
  {
    hide Bound, Closed, Set, When;
    ClosedMore(prop, name, params);
    ClosedWhen(before, c, Set(prop, name), params);
  }

  lemma AddChanges(before: seq<Token>, prop: string, name: string, count: nat, opType: Int32, params: seq<Member>)
    requires count > 0 ==> Bound(params, name)
    ensures Closed(before + Changes(prop, name, count, opType), params) <==> Closed(before, params)
  {
    hide Bound;
    ClosedConcat(before, Changes(prop, name, count, opType), params);
  }

  /** What the parameters hold, whatever the key and the operation. */
  predicate Given(scn: Scene, p: seq<Member>) {
    && Bound(p, "inp_active") && Bound(p, "inp_public")
    && (Bound(p, "inp_name") <==> scn.name != "") && (Bound(p, "inp_region") <==> scn.region != "")
    && (Bound(p, "inp_user") <==> scn.user != "" || scn.isPublic)
    && (Bound(p, "inp_lat") <==> scn.latitude > UNSET) && (Bound(p, "inp_long") <==> scn.longitude > UNSET)
    && (Bound(p, "inp_description") <==> scn.description != "") && (Bound(p, "inp_thumbnail") <==> scn.thumbnail != "")
    && (Bound(p, "inp_assets") <==> scn.assets != []) && (Bound(p, "inp_tags") <==> scn.tags != [])
  }

  lemma CreatingClosed(before: seq<Token>, scn: Scene, p: seq<Member>)
    requires Given(scn, p) && Closed(before, p)
    ensures Closed(Creating(before, scn), p) <==> scn.latitude >= UNSET && scn.longitude >= UNSET
  {
    hide Bound, Closed, More, When;
    var a0 := before + More("public", "inp_public") + More("active", "inp_active");
    ClosedMore("public", "inp_public", p);
    ClosedMore("active", "inp_active", p);
    ClosedConcat(before, More("public", "inp_public"), p);
    ClosedConcat(before + More("public", "inp_public"), More("active", "inp_active"), p);
    AddMore(a0, scn.name != "", "name", "inp_name", p);
    var a1 := a0 + When(scn.name != "", More("name", "inp_name"));
    AddMore(a1, scn.latitude != UNSET, "latitude", "inp_lat", p);
    var a2 := a1 + When(scn.latitude != UNSET, More("latitude", "inp_lat"));
    AddMore(a2, scn.longitude != UNSET, "longitude", "inp_long", p);
    var a3 := a2 + When(scn.longitude != UNSET, More("longitude", "inp_long"));
    AddMore(a3, scn.region != "", "region", "inp_region", p);
    var a4 := a3 + When(scn.region != "", More("region", "inp_region"));
    AddMore(a4, scn.description != "", "description", "inp_description", p);
    var a5 := a4 + When(scn.description != "", More("description", "inp_description"));
    AddMore(a5, scn.user != "", "user", "inp_user", p);
    var a6 := a5 + When(scn.user != "", More("user", "inp_user"));
    AddMore(a6, scn.thumbnail != "", "thumbnail", "inp_thumbnail", p);
    var a7 := a6 + When(scn.thumbnail != "", More("thumbnail", "inp_thumbnail"));
    AddMore(a7, scn.assets != [], "assets", "inp_assets", p);
    var a8 := a7 + When(scn.assets != [], More("assets", "inp_assets"));
    AddMore(a8, scn.tags != [], "tags", "inp_tags", p);
    ClosedConcat(a8 + When(scn.tags != [], More("tags", "inp_tags")), [MapClose, NodeClose], p);
    assert Closed([MapClose, NodeClose], p) by { NoPlaceholders([MapClose, NodeClose], p); }
  }

  lemma NoPlaceholders(ts: seq<Token>, p: seq<Member>)
    requires forall t <- ts :: !t.Param?
    ensures Closed(ts, p)
  {
  }

  lemma SetStartClosed(before: seq<Token>, p: seq<Member>)
    requires Closed(before, p) && Bound(p, "inp_active")
    ensures Closed(before + SET_START, p)
  {
    hide Bound;
  }

  lemma UpdatingFieldsClosed(before: seq<Token>, scn: Scene, p: seq<Member>)
    requires Given(scn, p) && Closed(before, p)
    ensures Closed(UpdatingFields(before, scn), p) <==> scn.latitude >= UNSET && scn.longitude >= UNSET
  {
    hide Bound, Closed, Set, When;
    ClosedMore("public", "inp_public", p);
    ClosedConcat(before, Set("public", "inp_public"), p);
    var a0 := before + Set("public", "inp_public");
    AddSet(a0, scn.name != "", "name", "inp_name", p);
    var a1 := a0 + When(scn.name != "", Set("name", "inp_name"));
    AddSet(a1, scn.latitude != UNSET, "latitude", "inp_lat", p);
    var a2 := a1 + When(scn.latitude != UNSET, Set("latitude", "inp_lat"));
    AddSet(a2, scn.longitude != UNSET, "longitude", "inp_long", p);
    var a3 := a2 + When(scn.longitude != UNSET, Set("longitude", "inp_long"));
    AddSet(a3, scn.region != "", "region", "inp_region", p);
    var a4 := a3 + When(scn.region != "", Set("region", "inp_region"));
    AddSet(a4, scn.description != "", "description", "inp_description", p);
    var a5 := a4 + When(scn.description != "", Set("description", "inp_description"));
    AddSet(a5, scn.user != "", "user", "inp_user", p);
    var a6 := a5 + When(scn.user != "", Set("user", "inp_user"));
    AddSet(a6, scn.thumbnail != "", "thumbnail", "inp_thumbnail", p);
  }

  lemma UpdatingClosed(before: seq<Token>, scn: Scene, opType: Int32, p: seq<Member>)
    requires Given(scn, p) && Closed(before, p)
    ensures Closed(Updating(before, scn, opType), p) <==> scn.latitude >= UNSET && scn.longitude >= UNSET
  {
    hide Bound, Closed, UpdatingFields, Changes;
    SetStartClosed(before, p);
    UpdatingFieldsClosed(before + SET_START, scn, p);
    var a7 := UpdatingFields(before + SET_START, scn);
    AddChanges(a7, "assets", "inp_assets", |scn.assets|, opType, p);
    AddChanges(a7 + Changes("assets", "inp_assets", |scn.assets|, opType), "tags", "inp_tags", |scn.tags|, opType, p);
  }

  lemma MatchClosed(scn: Scene, p: seq<Member>)
    requires Given(scn, p)
    ensures Closed(RenderMatch(MatchOf(scn)), p)
  {
    hide Bound, RenderEquals;
    EqualsClosed(MatchOf(scn), p);
    if MatchOf(scn) != [] {
      var inner := RenderEquals(MatchOf(scn));
      ClosedConcat([MapOpen], inner, p);
      ClosedConcat([MapOpen] + inner, [MapClose], p);
    }
  }

  lemma {:induction false} EqualsClosed(ps: seq<Equals>, p: seq<Member>)
    ensures ps != [] ==> (Closed(RenderEquals(ps), p) <==> forall e <- ps :: Bound(p, e.name))
  {
    hide Bound;
    if ps != [] {
      var first := [Prop(ps[0].prop), Param(ps[0].name)];
      assert Param(ps[0].name) in first;
      if |ps| > 1 {
        EqualsClosed(ps[1..], p);
        ClosedConcat(first, [Comma], p);
        ClosedConcat(first + [Comma], RenderEquals(ps[1..]), p);
        assert ps == [ps[0]] + ps[1..];
      }
    }
  }

  lemma TagsClosed(p: seq<Member>)
    ensures Closed(RenderCondition(AllTags("inp_tags")), p) <==> Bound(p, "inp_tags")
  {
    hide Bound;
    assert Param("inp_tags") in RenderCondition(AllTags("inp_tags"));
  }

  lemma DistanceClosed(p: seq<Member>)
    ensures var d := Within("inp_lat", "inp_lat", "inp_long", "inp_distance");
      Closed(RenderCondition(d), p) <==> Bound(p, "inp_lat") && Bound(p, "inp_long") && Bound(p, "inp_distance")
  {
    hide Bound;
    var ts := RenderCondition(Within("inp_lat", "inp_lat", "inp_long", "inp_distance"));
    assert Param("inp_lat") in ts && Param("inp_long") in ts && Param("inp_distance") in ts;
  }

  lemma {:induction false} ConditionsClosed(cs: seq<Condition>, p: seq<Member>)
    ensures Closed(RenderWhere(cs), p) <==> forall c <- cs :: Closed(RenderCondition(c), p)
  {
    hide Bound, RenderCondition, Closed;
    NoPlaceholders([Where], p);
    if cs == [] {
      NoPlaceholders([], p);
    } else {
      ClosedConcat([Where], RenderConditions(cs), p);
      AllConditionsClosed(cs, p);
    }
  }

  lemma {:induction false} AllConditionsClosed(cs: seq<Condition>, p: seq<Member>)
    requires cs != []
    ensures Closed(RenderConditions(cs), p) <==> forall c <- cs :: Closed(RenderCondition(c), p)
  {
    hide Bound, RenderCondition, Closed;
    if |cs| > 1 {
      AllConditionsClosed(cs[1..], p);
      NoPlaceholders([And], p);
      ClosedConcat(RenderCondition(cs[0]), [And], p);
      ClosedConcat(RenderCondition(cs[0]) + [And], RenderConditions(cs[1..]), p);
      assert cs == [cs[0]] + cs[1..];
    }
  }

  lemma WhereClosed(scn: Scene, p: seq<Member>)
    requires Given(scn, p)
    ensures Closed(RenderWhere(WhereOf(scn)), p) <==> (HasDistance(scn) ==> Bound(p, "inp_distance"))
  {
    hide Bound, RenderWhere, RenderCondition, Closed;
    ConditionsClosed(WhereOf(scn), p);
    TagsClosed(p);
    DistanceClosed(p);
  }

  lemma RetrievalClosed(scn: Scene, skip: Int32, limit: Int32)
    ensures var p := Params("", GetOp, scn, skip, limit);
      Closed(Render(QueryOf(scn)), p) <==> !Unbound("", GetOp, scn)
  {
    var p := Params("", GetOp, scn, skip, limit);
    var q := QueryOf(scn);
    BoundCommon("", GetOp, scn, skip, limit);
    BoundOther("", GetOp, scn, skip, limit);
    BoundPaging("", GetOp, scn, skip, limit);
    assert Bound(p, "inp_skip") && Bound(p, "inp_limit") && (Bound(p, "inp_distance") <==> scn.distance > 0.01);
    assert Closed(RenderEnd(q), p);
    hide Bound, Params, RenderMatch, RenderWhere, RenderEnd, MatchOf, WhereOf, Find;
    MatchClosed(scn, p);
    WhereClosed(scn, p);
    assert Closed([MatchNode], p) && Closed([NodeClose], p);
    hide Closed;
    ClosedConcat([MatchNode], RenderMatch(q.pattern), p);
    ClosedConcat([MatchNode] + RenderMatch(q.pattern), [NodeClose], p);
    ClosedConcat([MatchNode] + RenderMatch(q.pattern) + [NodeClose], RenderWhere(q.conditions), p);
    ClosedConcat([MatchNode] + RenderMatch(q.pattern) + [NodeClose] + RenderWhere(q.conditions), RenderEnd(q), p);
  }

  /** For every key, operation and scene: the generated query is closed under the generated
      parameters except precisely in the two cases above. */
  lemma ClosedExactly(key: string, op: Op, opType: Int32, scn: Scene, skip: Int32, limit: Int32)
    ensures Closed(Generated(key, op, opType, scn), Params(key, op, scn, skip, limit)) <==> !Unbound(key, op, scn)
  {
    hide Params, Bound, Closed, Keyed, Creating, Updating, Render, QueryOf;
    BoundCommon(key, op, scn, skip, limit);
    BoundOther(key, op, scn, skip, limit);
    if key == "" && op == GetOp {
      RetrievalClosed(scn, skip, limit);
    } else {
      KeyedOrWriteClosed(key, op, opType, scn, Params(key, op, scn, skip, limit));
    }
  }

  /** Everything but the keyless retrieval, under any parameters that give the scene. */
  lemma KeyedOrWriteClosed(key: string, op: Op, opType: Int32, scn: Scene, p: seq<Member>)
    requires Given(scn, p) && (Bound(p, "inp_key") <==> key != "") && !(key == "" && op == GetOp)
    ensures Closed(Generated(key, op, opType, scn), p) <==> !Unbound(key, op, scn)
  {
    hide Bound, Closed, Keyed, Creating, Updating, Render, QueryOf;
    KeyedClosed(key, op, scn, p);
    var start := Keyed(key, op, scn);
    NoPlaceholders([Return], p);
    NoPlaceholders([MapClose, NodeClose, Delete], p);
    match op {
    case CreateOp =>
      CreatingClosed(start, scn, p);
      ClosedConcat(Creating(start, scn), [Return], p);
    case UpdateOp =>
      UpdatingClosed(start, scn, opType, p);
      ClosedConcat(Updating(start, scn, opType), [Return], p);
    case DeleteOp =>
      ClosedConcat(start, [MapClose, NodeClose, Delete], p);
      ClosedConcat(start + [MapClose, NodeClose, Delete], [Return], p);
    case GetOp =>
      ClosedConcat(start, [Return], p);
    }
  }
}
