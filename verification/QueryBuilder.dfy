/** generate_scene_crud_query and generate_query_parameters: a query and the parameters it is run with. */
module QueryBuilder {
  import opened Wrappers
  import opened Json
  import opened SceneLists
  import opened Query

  datatype Op = CreateOp | GetOp | UpdateOp | DeleteOp

  const REMOVE: Int32 := 11

  // ---------------------------------------------------------------- the filter of a keyless retrieval

  predicate HasDistance(scn: Scene) {
    scn.latitude > -9998.9 && scn.longitude > -9998.9 && scn.distance > 0.0
  }

  /** Private scenes of the user, or public ones; neither for a private filter without a user. */
  function Visibility(scn: Scene): seq<Equals> {
    if scn.user != "" && !scn.isPublic then [Equals("user", "inp_user")]
    else if scn.isPublic then [Equals("public", "inp_public")]
    else []
  }

  function MatchOf(scn: Scene): seq<Equals> {
    if scn.name == "" && scn.region == "" then []
    else
      (if scn.name != "" then [Equals("name", "inp_name")] else []) +
      (if scn.region != "" then [Equals("region", "inp_region")] else []) +
      Visibility(scn)
  }

  function WhereOf(scn: Scene): seq<Condition> {
    (if scn.tags != [] then [AllTags("inp_tags")] else []) +
    (if HasDistance(scn) then [Within("inp_lat", "inp_lat", "inp_long", "inp_distance")] else [])
  }

  function QueryOf(scn: Scene): Retrieval {
    Retrieval(MatchOf(scn), WhereOf(scn), "inp_skip", "inp_limit")
  }

  // ---------------------------------------------------------------- the other queries

  function When(c: bool, ts: seq<Token>): seq<Token> {
    if c then ts else []
  }

  /** A further property in a map, or in a SET clause. */
  function More(prop: string, name: string): seq<Token> {
    [Comma, Prop(prop), Param(name)]
  }

  function Set(prop: string, name: string): seq<Token> {
    [Comma, Assign(prop), Param(name)]
  }

  function Start(op: Op): seq<Token> {
    [if op == CreateOp then CreateNode else MatchNode]
  }

  function Keyed(key: string, op: Op, scn: Scene): seq<Token> {
    Start(op) + When(key != "", [MapOpen, Prop("key"), Param("inp_key")]) +
    When(key != "" && op == GetOp && scn.user != "" && !scn.isPublic, More("user", "inp_user")) +
    When(key != "" && op == GetOp && scn.isPublic, More("public", "inp_public")) +
    When(key != "" && op == GetOp, [MapClose, NodeClose])
  }

  function Changes(prop: string, name: string, count: nat, opType: Int32): seq<Token> {
    if count == 0 then []
    else if opType == APPEND then [Comma, Append(prop), Param(name)]
    else if opType == REMOVE then [Comma, FilterOut(prop), Param(name), FilterClose]
    else []
  }

  const SET_START := [MapClose, NodeClose, SetWord, Assign("active"), Param("inp_active")]

  function UpdatingFields(before: seq<Token>, scn: Scene): seq<Token> {
    before + Set("public", "inp_public") +
    When(scn.name != "", Set("name", "inp_name")) +
    When(scn.latitude != UNSET, Set("latitude", "inp_lat")) +
    When(scn.longitude != UNSET, Set("longitude", "inp_long")) +
    When(scn.region != "", Set("region", "inp_region")) +
    When(scn.description != "", Set("description", "inp_description")) +
    When(scn.user != "", Set("user", "inp_user")) +
    When(scn.thumbnail != "", Set("thumbnail", "inp_thumbnail"))
  }

  function Updating(before: seq<Token>, scn: Scene, opType: Int32): seq<Token> {
    UpdatingFields(before + SET_START, scn) +
    Changes("assets", "inp_assets", |scn.assets|, opType) +
    Changes("tags", "inp_tags", |scn.tags|, opType)
  }

  function CreatingFields(before: seq<Token>, scn: Scene): seq<Token> {
    before + More("public", "inp_public") + More("active", "inp_active") +
    When(scn.name != "", More("name", "inp_name")) +
    When(scn.latitude != UNSET, More("latitude", "inp_lat")) +
    When(scn.longitude != UNSET, More("longitude", "inp_long")) +
    When(scn.region != "", More("region", "inp_region")) +
    When(scn.description != "", More("description", "inp_description")) +
    When(scn.user != "", More("user", "inp_user")) +
    When(scn.thumbnail != "", More("thumbnail", "inp_thumbnail")) +
    When(scn.assets != [], More("assets", "inp_assets")) +
    When(scn.tags != [], More("tags", "inp_tags"))
  }

  function Creating(before: seq<Token>, scn: Scene): seq<Token> {
    CreatingFields(before, scn) + [MapClose, NodeClose]
  }

  function Generated(key: string, op: Op, opType: Int32, scn: Scene): seq<Token> {
    match op
    case CreateOp => Creating(Keyed(key, op, scn), scn) + [Return]
    case UpdateOp => Updating(Keyed(key, op, scn), scn, opType) + [Return]
    case DeleteOp => Keyed(key, op, scn) + [MapClose, NodeClose, Delete] + [Return]
    case GetOp => if key == "" then Render(QueryOf(scn)) else Keyed(key, op, scn) + [Return]
  }

  // ---------------------------------------------------------------- the builder

  lemma {:induction false} RenderOneMore(ps: seq<Equals>, e: Equals)
    requires ps != []
    ensures RenderEquals(ps + [e]) == RenderEquals(ps) + [Comma, Prop(e.prop), Param(e.name)]
  {
    if |ps| == 1 {
      assert (ps + [e])[1..] == [e];
      assert RenderEquals([e]) == [Prop(e.prop), Param(e.name)];
    } else {
      RenderOneMore(ps[1..], e);
      assert (ps + [e])[1..] == ps[1..] + [e];
    }
  }

  /** The tokens of the properties so far, after the opening brace. */
  function SoFar(ps: seq<Equals>): seq<Token> {
    if ps == [] then [] else RenderEquals(ps)
  }

  /** One property, with a comma in front of it when the map is started. */
  method AppendEquals(before: seq<Token>, e: Equals, started: bool, ghost base: seq<Token>, ghost ps: seq<Equals>)
    returns (q: seq<Token>)
    requires before == base + SoFar(ps) && (started <==> ps != [])
    ensures q == base + SoFar(ps + [e])
  {
    hide RenderEquals;
    q := before;
    if started {
      q := q + [Comma];
      RenderOneMore(ps, e);
    } else {
      assert ps + [e] == [e];
      assert RenderEquals([e]) == [Prop(e.prop), Param(e.name)] by { OneEquals(e); }
    }
    q := q + [Prop(e.prop), Param(e.name)];
  }

  lemma OneEquals(e: Equals)
    ensures RenderEquals([e]) == [Prop(e.prop), Param(e.name)]
  {
  }

  method AppendMatch(before: seq<Token>, scn: Scene) returns (q: seq<Token>)
    ensures q == before + RenderMatch(MatchOf(scn))
  {
    hide RenderEquals, SoFar;
    q := before;
    var nameEmpty, regionEmpty := scn.name == "", scn.region == "";
    if !nameEmpty || !regionEmpty {
      var started := false;
      q := q + [MapOpen];
      ghost var base, ps := q, [];
      assert q == base + SoFar([]) by { SoFarNone(); }
      if !nameEmpty {
        q := AppendEquals(q, Equals("name", "inp_name"), started, base, ps);
        started := true;
        ps := ps + [Equals("name", "inp_name")];
      }
      if !regionEmpty {
        q := AppendEquals(q, Equals("region", "inp_region"), started, base, ps);
        started := true;
        ps := ps + [Equals("region", "inp_region")];
      }
      if !(scn.user == "" || scn.isPublic) {
        q := AppendEquals(q, Equals("user", "inp_user"), started, base, ps);
        started := true;
        ps := ps + [Equals("user", "inp_user")];
      } else if scn.isPublic {
        q := AppendEquals(q, Equals("public", "inp_public"), started, base, ps);
        ps := ps + [Equals("public", "inp_public")];
      }
      assert ps == MatchOf(scn);
      q := q + [MapClose];
      assert q == before + RenderMatch(ps) by { SoFarAll(before, ps); }
    }
  }

  lemma SoFarNone()
    ensures SoFar([]) == []
  {
  }

  lemma SoFarAll(before: seq<Token>, ps: seq<Equals>)
    requires ps != []
    ensures before + [MapOpen] + SoFar(ps) + [MapClose] == before + RenderMatch(ps)
  {
  }

  method AppendWhere(before: seq<Token>, scn: Scene) returns (q: seq<Token>)
    ensures q == before + RenderWhere(WhereOf(scn))
  {
    q := before;
    var started := false;
    if |scn.tags| > 0 {
      q := q + [Where, AllOf, Param("inp_tags"), InTags];
      started := true;
    }
    if scn.latitude > -9998.9 && scn.longitude > -9998.9 && scn.distance > 0.0 {
      if started {
        q := q + [And];
      } else {
        q := q + [Where];
      }
      q := q + [ArcFrom, Param("inp_lat"), ArcLatitude, Param("inp_lat"), ArcLongitude, Param("inp_long"), ArcBelow,
                Param("inp_distance")];
    }
    OneOrTwoConditions(AllTags("inp_tags"), Within("inp_lat", "inp_lat", "inp_long", "inp_distance"));
  }

  lemma OneOrTwoConditions(a: Condition, d: Condition)
    ensures RenderConditions([a]) == RenderCondition(a) && RenderConditions([d]) == RenderCondition(d)
    ensures RenderConditions([a, d]) == RenderCondition(a) + [And] + RenderCondition(d)
  {
    hide RenderCondition;
    assert [a, d][1..] == [d];
  }

  method AppendChanges(before: seq<Token>, prop: string, name: string, count: nat, opType: Int32)
    returns (q: seq<Token>)
    ensures q == before + Changes(prop, name, count, opType)
  {
    q := before;
    if count > 0 {
      if opType == APPEND {
        q := q + [Comma, Append(prop), Param(name)];
      } else if opType == REMOVE {
        q := q + [Comma, FilterOut(prop), Param(name), FilterClose];
      }
    }
  }

  /** A clause, appended when there is something to give it. */
  method AppendWhen(before: seq<Token>, c: bool, clause: seq<Token>) returns (q: seq<Token>)
    ensures q == before + When(c, clause)
  {
    q := before;
    if c {
      q := q + clause;
    }
  }

  method AppendUpdate(before: seq<Token>, scn: Scene, opType: Int32) returns (q: seq<Token>)
    ensures q == Updating(before, scn, opType)
  {
    hide When, Set, Changes;
    q := before + SET_START;
    q := q + Set("public", "inp_public");
    q := AppendWhen(q, scn.name != "", Set("name", "inp_name"));
    q := AppendWhen(q, !(scn.latitude == UNSET), Set("latitude", "inp_lat"));
    q := AppendWhen(q, !(scn.longitude == UNSET), Set("longitude", "inp_long"));
    q := AppendWhen(q, scn.region != "", Set("region", "inp_region"));
    q := AppendWhen(q, scn.description != "", Set("description", "inp_description"));
    q := AppendWhen(q, scn.user != "", Set("user", "inp_user"));
    q := AppendWhen(q, scn.thumbnail != "", Set("thumbnail", "inp_thumbnail"));
    q := AppendChanges(q, "assets", "inp_assets", |scn.assets|, opType);
    q := AppendChanges(q, "tags", "inp_tags", |scn.tags|, opType);
  }

  method AppendCreate(before: seq<Token>, scn: Scene) returns (q: seq<Token>)
    ensures q == Creating(before, scn)
  {
    hide When, More;
    q := before + More("public", "inp_public") + More("active", "inp_active");
    q := AppendWhen(q, scn.name != "", More("name", "inp_name"));
    q := AppendWhen(q, !(scn.latitude == UNSET), More("latitude", "inp_lat"));
    q := AppendWhen(q, !(scn.longitude == UNSET), More("longitude", "inp_long"));
    q := AppendWhen(q, scn.region != "", More("region", "inp_region"));
    q := AppendWhen(q, scn.description != "", More("description", "inp_description"));
    q := AppendWhen(q, scn.user != "", More("user", "inp_user"));
    q := AppendWhen(q, scn.thumbnail != "", More("thumbnail", "inp_thumbnail"));
    q := AppendWhen(q, |scn.assets| > 0, More("assets", "inp_assets"));
    q := AppendWhen(q, |scn.tags| > 0, More("tags", "inp_tags"));
    q := q + [MapClose, NodeClose];
  }

  method AppendKey(before: seq<Token>, key: string, op: Op, scn: Scene) returns (q: seq<Token>)
    requires before == Start(op)
    ensures q == Keyed(key, op, scn)
  {
    q := before;
    if key != "" {
      q := q + [MapOpen, Prop("key"), Param("inp_key")];
      if op == GetOp {
        if !(scn.user == "" || scn.isPublic) {
          q := q + More("user", "inp_user");
        } else if scn.isPublic {
          q := q + More("public", "inp_public");
        }
        q := q + [MapClose, NodeClose];
      }
    }
  }

  method GenerateSceneCrudQuery(key: string, op: Op, opType: Int32, scn: Scene) returns (q: seq<Token>)
    ensures q == Generated(key, op, opType, scn)
  {
    hide Updating, Creating, RenderMatch, RenderWhere, MatchOf, WhereOf, Keyed;
    q := [if op == CreateOp then CreateNode else MatchNode];
    q := AppendKey(q, key, op, scn);
    var keyQuery := key != "";
    if op == UpdateOp {
      q := AppendUpdate(q, scn, opType);
    } else if op == DeleteOp {
      q := q + [MapClose, NodeClose, Delete];
    } else if op == GetOp && !keyQuery {
      NoKey(op, scn);
      q := AppendMatch(q, scn);
      q := q + [NodeClose];
      q := AppendWhere(q, scn);
    } else if op == CreateOp {
      q := AppendCreate(q, scn);
    }
    q := q + [Return];
    if op == GetOp && !keyQuery {
      q := q + [OrderByKey, Skip, Param("inp_skip"), Limit, Param("inp_limit")];
    }
  }

  lemma NoKey(op: Op, scn: Scene)
    ensures Keyed("", op, scn) == Start(op)
  {
  }

  // ---------------------------------------------------------------- the parameters

  function ParamFields(key: string, op: Op, scn: Scene, skip: Int32, limit: Int32): seq<Field> {
    [Field("inp_key", Text(key)),
     Field("inp_skip", if key == "" && op == GetOp then Some(Num(skip)) else None),
     Field("inp_limit", if key == "" && op == GetOp then Some(Num(limit)) else None),
     Field("inp_active", Some(Bool(scn.active))),
     Field("inp_public", Some(Bool(scn.isPublic))),
     Field("inp_name", Text(scn.name)),
     Field("inp_lat", Above(scn.latitude)),
     Field("inp_long", Above(scn.longitude)),
     Field("inp_distance", if scn.distance > 0.01 && op == GetOp && key == "" then Some(Real(scn.distance)) else None),
     Field("inp_region", Text(scn.region)),
     Field("inp_description", Text(scn.description)),
     Field("inp_user", if scn.user != "" || scn.isPublic then Some(Str(scn.user)) else None),
     Field("inp_thumbnail", Text(scn.thumbnail)),
     Field("inp_assets", if scn.assets == [] then None else Some(Arr(Texts(scn.assets)))),
     Field("inp_tags", if scn.tags == [] then None else Some(Arr(Texts(scn.tags))))]
  }

  function Params(key: string, op: Op, scn: Scene, skip: Int32, limit: Int32): seq<Member> {
    Keep(ParamFields(key, op, scn, skip, limit))
  }

  const PARAM_NAMES := ["inp_key", "inp_skip", "inp_limit", "inp_active", "inp_public", "inp_name", "inp_lat",
                        "inp_long", "inp_distance", "inp_region", "inp_description", "inp_user", "inp_thumbnail",
                        "inp_assets", "inp_tags"]

  lemma ParamsNamed(key: string, op: Op, scn: Scene, skip: Int32, limit: Int32)
    ensures Named(ParamFields(key, op, scn, skip, limit), PARAM_NAMES)
  {
    hide Text, Above, Texts;
  }

  method Values(texts: seq<string>) returns (values: seq<Tree>)
    ensures values == Texts(texts)
  {
    values := [];
    for i := 0 to |texts|
      invariant values == Texts(texts[..i])
    {
      values := values + [Str(texts[i])];
    }
    assert texts[..|texts|] == texts;
  }

  /** A parameter, put into the map when there is a value for it. */
  method Emplace(before: seq<Member>, name: string, value: Option<Tree>, ghost fields: seq<Field>, ghost k: nat)
    returns (params: seq<Member>)
    requires k < |fields| && before == Keep(fields[..k]) && fields[k] == Field(name, value)
    ensures params == Keep(fields[..k + 1])
  {
    assert fields[..k + 1][..k] == fields[..k];
    params := before;
    if value.Some? {
      params := params + [Member(name, value.value)];
    }
  }

  lemma FirstParams(key: string, op: Op, scn: Scene, skip: Int32, limit: Int32)
    ensures var fs := ParamFields(key, op, scn, skip, limit);
      && |fs| == 15
      && fs[0] == Field("inp_key", Text(key))
      && fs[1] == Field("inp_skip", if key == "" && op == GetOp then Some(Num(skip)) else None)
      && fs[2] == Field("inp_limit", if key == "" && op == GetOp then Some(Num(limit)) else None)
      && fs[3] == Field("inp_active", Some(Bool(scn.active))) && fs[4] == Field("inp_public", Some(Bool(scn.isPublic)))
      && fs[5] == Field("inp_name", Text(scn.name))
      && fs[6] == Field("inp_lat", Above(scn.latitude)) && fs[7] == Field("inp_long", Above(scn.longitude))
  {
    hide Text, Above, Texts;
  }

  method EmplaceFirst(key: string, op: Op, scn: Scene, skip: Int32, limit: Int32) returns (params: seq<Member>)
    ensures params == Keep(ParamFields(key, op, scn, skip, limit)[..8])
  {
    ghost var fs := ParamFields(key, op, scn, skip, limit);
    FirstParams(key, op, scn, skip, limit);
    hide Keep, Text, Above, Texts, ParamFields;
    params := [];
    assert params == Keep(fs[..0]) by { NoFields(fs); }
    params := Emplace(params, "inp_key", Text(key), fs, 0);
    params := Emplace(params, "inp_skip", if key == "" && op == GetOp then Some(Num(skip)) else None, fs, 1);
    params := Emplace(params, "inp_limit", if key == "" && op == GetOp then Some(Num(limit)) else None, fs, 2);
    params := Emplace(params, "inp_active", Some(Bool(scn.active)), fs, 3);
    params := Emplace(params, "inp_public", Some(Bool(scn.isPublic)), fs, 4);
    params := Emplace(params, "inp_name", Text(scn.name), fs, 5);
    params := Emplace(params, "inp_lat", Above(scn.latitude), fs, 6);
    params := Emplace(params, "inp_long", Above(scn.longitude), fs, 7);
  }

  lemma NoFields(fs: seq<Field>)
    ensures Keep(fs[..0]) == []
  {
  }

  method GenerateQueryParameters(key: string, op: Op, scn: Scene, skip: Int32, limit: Int32)
    returns (params: seq<Member>)
    ensures params == Params(key, op, scn, skip, limit)
  {
    ghost var fs := ParamFields(key, op, scn, skip, limit);
    hide Keep, Text, Above, Texts;
    params := EmplaceFirst(key, op, scn, skip, limit);
    var near := scn.distance > 0.01 && op == GetOp && key == "";
    params := Emplace(params, "inp_distance", if near then Some(Real(scn.distance)) else None, fs, 8);
    params := Emplace(params, "inp_region", Text(scn.region), fs, 9);
    params := Emplace(params, "inp_description", Text(scn.description), fs, 10);
    var named := !(scn.user == "" || scn.isPublic) || scn.isPublic;
    params := Emplace(params, "inp_user", if named then Some(Str(scn.user)) else None, fs, 11);
    params := Emplace(params, "inp_thumbnail", Text(scn.thumbnail), fs, 12);
    var assets := Values(scn.assets);
    params := Emplace(params, "inp_assets", if |scn.assets| > 0 then Some(Arr(assets)) else None, fs, 13);
    var tags := Values(scn.tags);
    params := Emplace(params, "inp_tags", if |scn.tags| > 0 then Some(Arr(tags)) else None, fs, 14);
    assert fs[..15] == fs;
  }
}
