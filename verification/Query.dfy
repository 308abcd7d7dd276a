/**
 Queries as the tokens the builder appends. The comment beside a token is the text it stands for.
 A keyless retrieval has a syntax tree; rendering it and parsing it undo each other.
 */
module Query {
  import opened Wrappers

  datatype Token =
    | CreateNode          // CREATE (scn:Scene
    | MatchNode           // MATCH (scn:Scene
    | MapOpen             // {
    | MapClose            // }
    | NodeClose           // )
    | Comma               // ,
    | Prop(prop: string)  // prop:
    | Param(name: string) // {name}
    | Where               // WHERE
    | And                 // AND
    | AllOf               // ALL(x in
    | InTags              // WHERE x in scn.tags)
    | ArcFrom             // ( 12742000 * asin(sqrt(haversin(radians(
    | ArcLatitude         // - scn.latitude)) + cos(radians(
    | ArcLongitude        // )) * cos(radians(scn.latitude)) * haversin(radians(scn.longitude -
    | ArcBelow            // )))) <
    | SetWord             // SET
    | Assign(prop: string)    // scn.prop =
    | Append(prop: string)    // scn.prop = coalesce(scn.prop, []) +
    | FilterOut(prop: string) // scn.prop = FILTER(x IN scn.prop WHERE NOT (x IN
    | FilterClose         // ))
    | Delete              // DETACH DELETE scn
    | Return              // RETURN scn
    | OrderByKey          // ORDER BY scn.key
    | Skip                // SKIP
    | Limit               // LIMIT

  datatype Equals = Equals(prop: string, name: string)

  /** All of a list are among the tags; or the great-circle distance is below a bound. */
  datatype Condition =
    | AllTags(tags: string)
    | Within(latitude: string, latitude2: string, longitude: string, distance: string)

  /** MATCH (scn:Scene {...}) WHERE ... RETURN scn ORDER BY scn.key SKIP ... LIMIT ... */
  datatype Retrieval = Retrieval(pattern: seq<Equals>, conditions: seq<Condition>, skip: string, limit: string)

  // ---------------------------------------------------------------- rendering

  function RenderEquals(ps: seq<Equals>): seq<Token>
    requires ps != []
  {
    var first := [Prop(ps[0].prop), Param(ps[0].name)];
    if |ps| == 1 then first else first + [Comma] + RenderEquals(ps[1..])
  }

  function RenderCondition(c: Condition): seq<Token> {
    match c
    case AllTags(tags) => [AllOf, Param(tags), InTags]
    case Within(lat, lat2, long, distance) =>
      [ArcFrom, Param(lat), ArcLatitude, Param(lat2), ArcLongitude, Param(long), ArcBelow, Param(distance)]
  }

  function RenderConditions(cs: seq<Condition>): seq<Token>
    requires cs != []
  {
    if |cs| == 1 then RenderCondition(cs[0]) else RenderCondition(cs[0]) + [And] + RenderConditions(cs[1..])
  }

  function RenderMatch(ps: seq<Equals>): seq<Token> {
    if ps == [] then [] else [MapOpen] + RenderEquals(ps) + [MapClose]
  }

  function RenderWhere(cs: seq<Condition>): seq<Token> {
    if cs == [] then [] else [Where] + RenderConditions(cs)
  }

  function RenderEnd(q: Retrieval): seq<Token> {
    [Return, OrderByKey, Skip, Param(q.skip), Limit, Param(q.limit)]
  }

  function Render(q: Retrieval): seq<Token> {
    [MatchNode] + RenderMatch(q.pattern) + [NodeClose] + RenderWhere(q.conditions) + RenderEnd(q)
  }

  // ---------------------------------------------------------------- parsing

  datatype Parsed<T> = Parsed(value: T, rest: seq<Token>)

  /** prop: {name} and, after a comma, more of them, up to the closing brace. */
  function ParseEquals(ts: seq<Token>): Option<Parsed<seq<Equals>>> {
    if |ts| < 3 || !ts[0].Prop? || !ts[1].Param? then None
    else
      var e := Equals(ts[0].prop, ts[1].name);
      if ts[2] == MapClose then Some(Parsed([e], ts[3..]))
      else if ts[2] != Comma then None
      else
        var more := ParseEquals(ts[3..]);
        if more.None? then None else Some(Parsed([e] + more.value.value, more.value.rest))
  }

  function ParseCondition(ts: seq<Token>): (r: Option<Parsed<Condition>>)
    ensures r.Some? ==> |r.value.rest| < |ts|
  {
    if |ts| >= 3 && ts[0] == AllOf && ts[1].Param? && ts[2] == InTags then Some(Parsed(AllTags(ts[1].name), ts[3..]))
    else if |ts| >= 8 && ts[0] == ArcFrom && ts[1].Param? && ts[2] == ArcLatitude && ts[3].Param? &&
            ts[4] == ArcLongitude && ts[5].Param? && ts[6] == ArcBelow && ts[7].Param? then
      Some(Parsed(Within(ts[1].name, ts[3].name, ts[5].name, ts[7].name), ts[8..]))
    else None
  }

  function ParseConditions(ts: seq<Token>): Option<Parsed<seq<Condition>>>
    decreases |ts|
  {
    var first := ParseCondition(ts);
    if first.None? then None
    else if first.value.rest == [] || first.value.rest[0] != And then
      Some(Parsed([first.value.value], first.value.rest))
    else
      var more := ParseConditions(first.value.rest[1..]);
      if more.None? then None else Some(Parsed([first.value.value] + more.value.value, more.value.rest))
  }

  function ParseMatch(ts: seq<Token>): Option<Parsed<seq<Equals>>> {
    if ts != [] && ts[0] == MapOpen then ParseEquals(ts[1..]) else Some(Parsed([], ts))
  }

  function ParseWhere(ts: seq<Token>): Option<Parsed<seq<Condition>>> {
    if ts != [] && ts[0] == Where then ParseConditions(ts[1..]) else Some(Parsed([], ts))
  }

  function ParseEnd(pattern: seq<Equals>, conditions: seq<Condition>, ts: seq<Token>): Option<Retrieval> {
    if |ts| == 6 && ts[0] == Return && ts[1] == OrderByKey && ts[2] == Skip && ts[3].Param? && ts[4] == Limit &&
       ts[5].Param? then
      Some(Retrieval(pattern, conditions, ts[3].name, ts[5].name))
    else None
  }

  function Parse(ts: seq<Token>): Option<Retrieval> {
    if ts == [] || ts[0] != MatchNode then None
    else
      var m := ParseMatch(ts[1..]);
      if m.None? || m.value.rest == [] || m.value.rest[0] != NodeClose then None
      else
        var w := ParseWhere(m.value.rest[1..]);
        if w.None? then None else ParseEnd(m.value.value, w.value.value, w.value.rest)
  }

  // ---------------------------------------------------------------- each undoes the other

  lemma {:induction false} ParseRenderEquals(ps: seq<Equals>, rest: seq<Token>)
    requires ps != []
    ensures ParseEquals(RenderEquals(ps) + ([MapClose] + rest)) == Some(Parsed(ps, rest))
  {
    var ts := RenderEquals(ps) + ([MapClose] + rest);
    if |ps| == 1 {
      assert ts[3..] == rest && [ps[0]] == ps;
    } else {
      ParseRenderEquals(ps[1..], rest);
      assert ts[3..] == RenderEquals(ps[1..]) + ([MapClose] + rest);
      assert [ps[0]] + ps[1..] == ps;
    }
  }

  lemma ParseRenderCondition(c: Condition, rest: seq<Token>)
    ensures ParseCondition(RenderCondition(c) + rest) == Some(Parsed(c, rest))
  {
    var ts := RenderCondition(c) + rest;
    assert ts[|RenderCondition(c)|..] == rest;
  }

  lemma {:induction false} ParseRenderConditions(cs: seq<Condition>, rest: seq<Token>)
    requires cs != [] && (rest == [] || rest[0] != And)
    ensures ParseConditions(RenderConditions(cs) + rest) == Some(Parsed(cs, rest))
  {
    hide ParseCondition, RenderCondition;
    if |cs| == 1 {
      ParseRenderCondition(cs[0], rest);
      assert [cs[0]] == cs;
    } else {
      var tail := [And] + (RenderConditions(cs[1..]) + rest);
      assert RenderConditions(cs) + rest == RenderCondition(cs[0]) + tail;
      ParseRenderCondition(cs[0], tail);
      ParseRenderConditions(cs[1..], rest);
      assert tail[1..] == RenderConditions(cs[1..]) + rest;
      assert [cs[0]] + cs[1..] == cs;
    }
  }

  lemma ParseRenderMatch(ps: seq<Equals>, rest: seq<Token>)
    requires rest != [] && rest[0] != MapOpen
    ensures ParseMatch(RenderMatch(ps) + rest) == Some(Parsed(ps, rest))
  {
    hide ParseEquals, RenderEquals;
    if ps == [] {
      assert RenderMatch(ps) + rest == rest;
    } else {
      ParseRenderEquals(ps, rest);
      var inner := RenderEquals(ps);
      assert RenderMatch(ps) + rest == [MapOpen] + (inner + ([MapClose] + rest));
      HeadAndTail(MapOpen, inner + ([MapClose] + rest));
    }
  }

  lemma HeadAndTail(t: Token, rest: seq<Token>)
    ensures var ts := [t] + rest; ts != [] && ts[0] == t && ts[1..] == rest
  {
  }

  lemma ParseRenderWhere(cs: seq<Condition>, rest: seq<Token>)
    requires rest != [] && rest[0] != Where && rest[0] != And
    ensures ParseWhere(RenderWhere(cs) + rest) == Some(Parsed(cs, rest))
  {
    hide ParseConditions, RenderConditions;
    if cs == [] {
      assert RenderWhere(cs) + rest == rest;
    } else {
      ParseRenderConditions(cs, rest);
      assert RenderWhere(cs) + rest == [Where] + (RenderConditions(cs) + rest);
      HeadAndTail(Where, RenderConditions(cs) + rest);
    }
  }

  lemma RenderNested(q: Retrieval)
    ensures Render(q) ==
            [MatchNode] + (RenderMatch(q.pattern) + ([NodeClose] + (RenderWhere(q.conditions) + RenderEnd(q))))
  {
    hide RenderMatch, RenderWhere, RenderEnd;
  }

  /** Parsing a rendered query gives back the query, for every query. */
  lemma ParseRender(q: Retrieval)
    ensures Parse(Render(q)) == Some(q)
  {
    var tail := RenderWhere(q.conditions) + RenderEnd(q);
    assert RenderEnd(q)[0] == Return;
    assert ParseEnd(q.pattern, q.conditions, RenderEnd(q)) == Some(q);
    hide RenderMatch, RenderWhere, RenderEnd, ParseMatch, ParseWhere, ParseEnd, Render;
    RenderNested(q);
    HeadAndTail(MatchNode, RenderMatch(q.pattern) + ([NodeClose] + tail));
    HeadAndTail(NodeClose, tail);
    ParseRenderMatch(q.pattern, [NodeClose] + tail);
    ParseRenderWhere(q.conditions, RenderEnd(q));
  }

  lemma {:induction false} RenderParseEquals(ts: seq<Token>)
    ensures var r := ParseEquals(ts);
      r.Some? ==> r.value.value != [] && ts == RenderEquals(r.value.value) + ([MapClose] + r.value.rest)
  {
    var r := ParseEquals(ts);
    if r.Some? {
      assert ts == [ts[0], ts[1], ts[2]] + ts[3..];
      if ts[2] == Comma {
        RenderParseEquals(ts[3..]);
        assert r.value.value[1..] == ParseEquals(ts[3..]).value.value;
      }
    }
  }

  lemma RenderParseCondition(ts: seq<Token>)
    ensures var r := ParseCondition(ts); r.Some? ==> ts == RenderCondition(r.value.value) + r.value.rest
  {
    var r := ParseCondition(ts);
    if r.Some? {
      if ts[0] == AllOf {
        assert ts == [ts[0], ts[1], ts[2]] + ts[3..];
      } else {
        assert ts == [ts[0], ts[1], ts[2], ts[3], ts[4], ts[5], ts[6], ts[7]] + ts[8..];
      }
    }
  }

  lemma {:induction false} RenderParseConditions(ts: seq<Token>)
    ensures var r := ParseConditions(ts);
      r.Some? ==> r.value.value != [] && ts == RenderConditions(r.value.value) + r.value.rest
    decreases |ts|
  {
    RenderParseCondition(ts);
    hide ParseCondition, RenderCondition;
    var first, r := ParseCondition(ts), ParseConditions(ts);
    if r.Some? && first.value.rest != [] && first.value.rest[0] == And {
      RenderParseConditions(first.value.rest[1..]);
      assert first.value.rest == [And] + first.value.rest[1..];
      assert r.value.value[1..] == ParseConditions(first.value.rest[1..]).value.value;
    }
  }

  lemma RenderParseMatch(ts: seq<Token>)
    ensures var r := ParseMatch(ts); r.Some? ==> ts == RenderMatch(r.value.value) + r.value.rest
  {
    hide ParseEquals, RenderEquals;
    if ts != [] && ts[0] == MapOpen {
      RenderParseEquals(ts[1..]);
      assert ts == [MapOpen] + ts[1..];
    }
  }

  lemma RenderParseWhere(ts: seq<Token>)
    ensures var r := ParseWhere(ts); r.Some? ==> ts == RenderWhere(r.value.value) + r.value.rest
  {
    hide ParseConditions, RenderConditions;
    if ts != [] && ts[0] == Where {
      RenderParseConditions(ts[1..]);
      assert ts == [Where] + ts[1..];
    }
  }

  lemma RenderParseEnd(m: seq<Equals>, w: seq<Condition>, ts: seq<Token>)
    ensures var r := ParseEnd(m, w, ts);
      r.Some? ==> ts == RenderEnd(r.value) && r.value.pattern == m && r.value.conditions == w
  {
  }

  /** Whatever parses is the rendering of what it parses to: there is no second spelling. */
  lemma RenderParse(ts: seq<Token>)
    ensures Parse(ts).Some? ==> ts == Render(Parse(ts).value)
  {
    if Parse(ts).Some? {
      var m := ParseMatch(ts[1..]);
      var t := m.value.rest;
      var w := ParseWhere(t[1..]);
      hide ParseMatch, ParseWhere, ParseEnd, RenderMatch, RenderWhere, RenderEnd, Render;
      RenderParseMatch(ts[1..]);
      RenderParseWhere(t[1..]);
      RenderParseEnd(m.value.value, w.value.value, w.value.rest);
      RenderNested(Parse(ts).value);
      assert ts == [MatchNode] + ts[1..] && t == [NodeClose] + t[1..];
    }
  }
}
