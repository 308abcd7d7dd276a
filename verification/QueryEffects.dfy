/**
 What the generated CREATE and UPDATE queries do to the stored node: the clauses are run one after
 the other, from the tokens and the parameters alone.
 */
module QueryEffects {
  import opened Wrappers
  import opened Json
  import opened SceneLists
  import opened SceneListProofs
  import opened Query
  import opened QueryBuilder
  import opened QueryMeaning
  import opened QueryEvaluation
  import opened Retrieving

  // ---------------------------------------------------------------- running clauses

  function TextsOf(v: Tree): Option<seq<string>> {
    if v.Arr? then Some(StringsOf(v.items)) else None
  }

  /** A node with one property set. */
  function SetProp(n: Node, prop: string, v: Tree): Node {
    if prop == "key" then if v.Str? then n.(key := v.s) else n
    else if prop == "name" then if v.Str? then n.(name := Some(v.s)) else n
    else if prop == "region" then if v.Str? then n.(region := Some(v.s)) else n
    else if prop == "description" then if v.Str? then n.(description := Some(v.s)) else n
    else if prop == "user" then if v.Str? then n.(user := Some(v.s)) else n
    else if prop == "thumbnail" then if v.Str? then n.(thumbnail := Some(v.s)) else n
    else if prop == "active" then if v.Bool? then n.(active := Some(v.b)) else n
    else if prop == "public" then if v.Bool? then n.(isPublic := Some(v.b)) else n
    else if prop == "latitude" then if v.Real? then n.(latitude := Some(v.r)) else n
    else if prop == "longitude" then if v.Real? then n.(longitude := Some(v.r)) else n
    else if prop == "assets" then n.(assets := TextsOf(v))
    else if prop == "tags" then n.(tags := TextsOf(v))
    else n
  }

  function ListOf(n: Node, prop: string): Option<seq<string>> {
    if prop == "assets" then n.assets else if prop == "tags" then n.tags else None
  }

  function SetList(n: Node, prop: string, v: Option<seq<string>>): Node {
    if prop == "assets" then n.(assets := v) else if prop == "tags" then n.(tags := v) else n
  }

  /** coalesce(list, []) + more. */
  function Appended(list: Option<seq<string>>, more: seq<string>): Option<seq<string>> {
    Some(Or(list, []) + more)
  }

  /** The elements that are not in `gone`; a missing list stays missing. */
  function Filtered(list: Option<seq<string>>, gone: seq<string>): Option<seq<string>> {
    if list.None? then None else Some(Rest(list.value, gone))
  }

  function Rest(list: seq<string>, gone: seq<string>): seq<string> {
    if list == [] then []
    else
      var k := |list| - 1;
      Rest(list[..k], gone) + if list[k] in gone then [] else [list[k]]
  }

  /** One clause with the value of its placeholder. */
  function RunOne(clause: Token, v: Option<Tree>, n: Node): Option<Node> {
    if v.None? then None
    else
      match clause
      case Prop(prop) => Some(SetProp(n, prop, v.value))
      case Assign(prop) => Some(SetProp(n, prop, v.value))
      case Append(prop) =>
        if v.value.Arr? then Some(SetList(n, prop, Appended(ListOf(n, prop), StringsOf(v.value.items)))) else None
      case FilterOut(prop) =>
        if v.value.Arr? then Some(SetList(n, prop, Filtered(ListOf(n, prop), StringsOf(v.value.items)))) else None
      case _ => None
  }

  /** Clauses separated by commas, the first one first. */
  function RunClauses(ts: seq<Token>, params: seq<Member>, n: Node): Option<Node> {
    var k := |ts|;
    if k >= 4 && ts[k - 1] == FilterClose then
      if !ts[k - 2].Param? || !ts[k - 3].FilterOut? || ts[k - 4] != Comma then None
      else
        var before := RunClauses(ts[..k - 4], params, n);
        if before.None? then None else RunOne(ts[k - 3], Find(params, ts[k - 2].name), before.value)
    else if k >= 3 then
      if !ts[k - 1].Param? || ts[k - 2].FilterOut? || ts[k - 3] != Comma then None
      else
        var before := RunClauses(ts[..k - 3], params, n);
        if before.None? then None else RunOne(ts[k - 2], Find(params, ts[k - 1].name), before.value)
    else if k == 2 && ts[1].Param? && !ts[0].FilterOut? then RunOne(ts[0], Find(params, ts[1].name), n)
    else None
  }

  lemma RunThree(before: seq<Token>, clause: Token, name: string, params: seq<Member>, n: Node)
    requires RunClauses(before, params, n).Some? && !clause.FilterOut?
    ensures RunClauses(before + [Comma, clause, Param(name)], params, n) ==
            RunOne(clause, Find(params, name), RunClauses(before, params, n).value)
  {
    hide RunOne, Find, RunClauses;
    var ts := before + [Comma, clause, Param(name)];
    LastThree(before, Comma, clause, Param(name));
    OneMoreClause(ts, params, n);
  }

  lemma LastThree(before: seq<Token>, a: Token, b: Token, c: Token)
    ensures var ts := before + [a, b, c]; var k := |ts|;
      k >= 3 && ts[..k - 3] == before && ts[k - 3] == a && ts[k - 2] == b && ts[k - 1] == c
  {
  }

  lemma OneMoreClause(ts: seq<Token>, params: seq<Member>, n: Node)
    requires var k := |ts|;
      k >= 3 && ts[k - 1].Param? && !ts[k - 2].FilterOut? && ts[k - 3] == Comma
      && RunClauses(ts[..k - 3], params, n).Some?
    ensures var k := |ts|;
      RunClauses(ts, params, n) ==
        RunOne(ts[k - 2], Find(params, ts[k - 1].name), RunClauses(ts[..k - 3], params, n).value)
  {
    hide RunOne, Find;
  }

  lemma RunFour(before: seq<Token>, prop: string, name: string, params: seq<Member>, n: Node)
    requires RunClauses(before, params, n).Some?
    ensures RunClauses(before + [Comma, FilterOut(prop), Param(name), FilterClose], params, n) ==
            RunOne(FilterOut(prop), Find(params, name), RunClauses(before, params, n).value)
  {
    hide RunOne, Find;
    var ts := before + [Comma, FilterOut(prop), Param(name), FilterClose];
    assert ts[..|ts| - 4] == before;
  }

  lemma NothingAdded(before: seq<Token>)
    ensures before + [] == before
  {
  }

  /** A property that is set when something is given. */
  lemma RunWhen(before: seq<Token>, c: bool, prop: string, name: string, params: seq<Member>, n: Node)
    requires RunClauses(before, params, n).Some? && (c ==> Find(params, name).Some?)
    ensures var m := RunClauses(before, params, n).value;
      var after := Some(if c then SetProp(m, prop, Find(params, name).value) else m);
      && RunClauses(before + When(c, Set(prop, name)), params, n) == after
      && RunClauses(before + When(c, More(prop, name)), params, n) == after
  {
    hide SetProp, Find, RunClauses;
    NothingAdded(before);
    RunThree(before, Assign(prop), name, params, n);
    RunThree(before, Prop(prop), name, params, n);
  }

  /** The list after the changes of an update. */
  function Changed(list: Option<seq<string>>, given: seq<string>, opType: Int32): Option<seq<string>> {
    if given == [] then list
    else if opType == APPEND then Appended(list, given)
    else if opType == REMOVE then Filtered(list, given)
    else list
  }

  lemma RunChanges(before: seq<Token>, prop: string, name: string, given: seq<string>, opType: Int32,
                   params: seq<Member>, n: Node)
    requires RunClauses(before, params, n).Some? && (prop == "assets" || prop == "tags")
    requires given != [] ==> Find(params, name) == Some(Arr(Texts(given)))
    ensures var m := RunClauses(before, params, n).value;
      RunClauses(before + Changes(prop, name, |given|, opType), params, n) ==
        Some(SetList(m, prop, Changed(ListOf(m, prop), given, opType)))
  {
    hide Find, Appended, Filtered, Texts, StringsOf, RunClauses, SetList, ListOf;
    NothingAdded(before);
    StringsRoundTrip(given);
    RunThree(before, Append(prop), name, params, n);
    RunFour(before, prop, name, params, n);
    if given == [] || (opType != APPEND && opType != REMOVE) {
      SameList(RunClauses(before, params, n).value, prop);
    }
  }

  lemma SameList(n: Node, prop: string)
    requires prop == "assets" || prop == "tags"
    ensures SetList(n, prop, ListOf(n, prop)) == n
  {
  }

  // ---------------------------------------------------------------- splitting a query

  lemma Assoc(h: seq<Token>, x: seq<Token>, y: seq<Token>)
    ensures (h + x) + y == h + (x + y)
  {
  }

  /** The clauses of a CREATE do not depend on what stands before them. */
  lemma CreatingShift(h: seq<Token>, b: seq<Token>, scn: Scene)
    ensures CreatingFields(h + b, scn) == h + CreatingFields(b, scn)
  {
    hide When, More;
    var b0 := b + More("public", "inp_public");
    Assoc(h, b, More("public", "inp_public"));
    Assoc(h, b0, More("active", "inp_active"));
    var b1 := b0 + More("active", "inp_active");
    Assoc(h, b1, When(scn.name != "", More("name", "inp_name")));
    var b2 := b1 + When(scn.name != "", More("name", "inp_name"));
    Assoc(h, b2, When(scn.latitude != UNSET, More("latitude", "inp_lat")));
    var b3 := b2 + When(scn.latitude != UNSET, More("latitude", "inp_lat"));
    Assoc(h, b3, When(scn.longitude != UNSET, More("longitude", "inp_long")));
    var b4 := b3 + When(scn.longitude != UNSET, More("longitude", "inp_long"));
    Assoc(h, b4, When(scn.region != "", More("region", "inp_region")));
    var b5 := b4 + When(scn.region != "", More("region", "inp_region"));
    Assoc(h, b5, When(scn.description != "", More("description", "inp_description")));
    var b6 := b5 + When(scn.description != "", More("description", "inp_description"));
    Assoc(h, b6, When(scn.user != "", More("user", "inp_user")));
    var b7 := b6 + When(scn.user != "", More("user", "inp_user"));
    Assoc(h, b7, When(scn.thumbnail != "", More("thumbnail", "inp_thumbnail")));
    var b8 := b7 + When(scn.thumbnail != "", More("thumbnail", "inp_thumbnail"));
    Assoc(h, b8, When(scn.assets != [], More("assets", "inp_assets")));
    var b9 := b8 + When(scn.assets != [], More("assets", "inp_assets"));
    Assoc(h, b9, When(scn.tags != [], More("tags", "inp_tags")));
  }

  lemma UpdatingShift(h: seq<Token>, b: seq<Token>, scn: Scene)
    ensures UpdatingFields(h + b, scn) == h + UpdatingFields(b, scn)
  {
    hide When, Set;
    var b0 := b + Set("public", "inp_public");
    Assoc(h, b, Set("public", "inp_public"));
    Assoc(h, b0, When(scn.name != "", Set("name", "inp_name")));
    var b2 := b0 + When(scn.name != "", Set("name", "inp_name"));
    Assoc(h, b2, When(scn.latitude != UNSET, Set("latitude", "inp_lat")));
    var b3 := b2 + When(scn.latitude != UNSET, Set("latitude", "inp_lat"));
    Assoc(h, b3, When(scn.longitude != UNSET, Set("longitude", "inp_long")));
    var b4 := b3 + When(scn.longitude != UNSET, Set("longitude", "inp_long"));
    Assoc(h, b4, When(scn.region != "", Set("region", "inp_region")));
    var b5 := b4 + When(scn.region != "", Set("region", "inp_region"));
    Assoc(h, b5, When(scn.description != "", Set("description", "inp_description")));
    var b6 := b5 + When(scn.description != "", Set("description", "inp_description"));
    Assoc(h, b6, When(scn.user != "", Set("user", "inp_user")));
    var b7 := b6 + When(scn.user != "", Set("user", "inp_user"));
    Assoc(h, b7, When(scn.thumbnail != "", Set("thumbnail", "inp_thumbnail")));
  }

  // ---------------------------------------------------------------- what the parameters hold

  ghost predicate Holds(key: string, scn: Scene, p: seq<Member>) {
    && Find(p, "inp_key") == Text(key)
    && Find(p, "inp_active") == Some(Bool(scn.active)) && Find(p, "inp_public") == Some(Bool(scn.isPublic))
    && Find(p, "inp_name") == Text(scn.name) && Find(p, "inp_region") == Text(scn.region)
    && Find(p, "inp_description") == Text(scn.description) && Find(p, "inp_thumbnail") == Text(scn.thumbnail)
    && (scn.user != "" ==> Find(p, "inp_user") == Some(Str(scn.user)))
    && Find(p, "inp_lat") == Above(scn.latitude) && Find(p, "inp_long") == Above(scn.longitude)
    && (scn.assets != [] ==> Find(p, "inp_assets") == Some(Arr(Texts(scn.assets))))
    && (scn.tags != [] ==> Find(p, "inp_tags") == Some(Arr(Texts(scn.tags))))
  }

  lemma ParamsHold(key: string, op: Op, scn: Scene, skip: Int32, limit: Int32)
    ensures Holds(key, scn, Params(key, op, scn, skip, limit))
  {
    hide Find, Params, Texts, Text, Above;
    ParamAt(key, op, scn, skip, limit, 0);
    ParamAt(key, op, scn, skip, limit, 3);
    ParamAt(key, op, scn, skip, limit, 4);
    ParamAt(key, op, scn, skip, limit, 5);
    ParamAt(key, op, scn, skip, limit, 6);
    ParamAt(key, op, scn, skip, limit, 7);
    ParamAt(key, op, scn, skip, limit, 9);
    ParamAt(key, op, scn, skip, limit, 10);
    ParamAt(key, op, scn, skip, limit, 11);
    ParamAt(key, op, scn, skip, limit, 12);
    ParamAt(key, op, scn, skip, limit, 13);
    ParamAt(key, op, scn, skip, limit, 14);
  }

  // ---------------------------------------------------------------- creating

  const BLANK := Node("", None, None, None, None, None, None, None, None, None, None, None)

  /** What is kept of a text: nothing of an empty one. */
  function Kept(was: Option<string>, s: string): Option<string> {
    if s == "" then was else Some(s)
  }

  function KeptPlace(was: Option<real>, r: real): Option<real> {
    if r == UNSET then was else Some(r)
  }

  function KeptList(was: Option<seq<string>>, s: seq<string>): Option<seq<string>> {
    if s == [] then was else Some(s)
  }

  /** The node with the fields that are given put over those it had. */
  function Overlaid(n: Node, scn: Scene): Node {
    n.(active := Some(scn.active), isPublic := Some(scn.isPublic), name := Kept(n.name, scn.name),
       latitude := KeptPlace(n.latitude, scn.latitude), longitude := KeptPlace(n.longitude, scn.longitude),
       region := Kept(n.region, scn.region), description := Kept(n.description, scn.description),
       user := Kept(n.user, scn.user), thumbnail := Kept(n.thumbnail, scn.thumbnail))
  }

  /** A created scene as it is stored. */
  function Created(key: string, scn: Scene): Node {
    Overlaid(BLANK.(key := key), scn).(assets := KeptList(None, scn.assets), tags := KeptList(None, scn.tags))
  }

  lemma SetTexts(n: Node, s: string)
    ensures SetProp(n, "name", Str(s)) == n.(name := Some(s))
    ensures SetProp(n, "region", Str(s)) == n.(region := Some(s))
    ensures SetProp(n, "description", Str(s)) == n.(description := Some(s))
    ensures SetProp(n, "user", Str(s)) == n.(user := Some(s))
    ensures SetProp(n, "thumbnail", Str(s)) == n.(thumbnail := Some(s))
    ensures SetProp(n, "key", Str(s)) == n.(key := s)
  {
  }

  lemma SetOthers(n: Node, b: bool, r: real, s: seq<string>)
    ensures SetProp(n, "active", Bool(b)) == n.(active := Some(b))
    ensures SetProp(n, "public", Bool(b)) == n.(isPublic := Some(b))
    ensures SetProp(n, "latitude", Real(r)) == n.(latitude := Some(r))
    ensures SetProp(n, "longitude", Real(r)) == n.(longitude := Some(r))
    ensures SetProp(n, "assets", Arr(Texts(s))) == n.(assets := Some(s))
    ensures SetProp(n, "tags", Arr(Texts(s))) == n.(tags := Some(s))
  {
    StringsRoundTrip(s);
  }

  predicate PlacesGiven(scn: Scene) {
    scn.latitude >= UNSET && scn.longitude >= UNSET
  }

  function Clause(inSet: bool, prop: string, name: string): seq<Token> {
    if inSet then Set(prop, name) else More(prop, name)
  }

  /** A text property, set when it is given. */
  lemma RunText(inSet: bool, b: seq<Token>, prop: string, name: string, text: string, p: seq<Member>, n: Node, m: Node)
    requires RunClauses(b, p, n) == Some(m) && (text != "" ==> Find(p, name) == Some(Str(text)))
    ensures RunClauses(b + When(text != "", Clause(inSet, prop, name)), p, n) ==
            Some(if text == "" then m else SetProp(m, prop, Str(text)))
  {
    hide RunClauses, Find, SetProp, When, Set, More;
    RunWhen(b, text != "", prop, name, p, n);
  }

  lemma RunPlace(inSet: bool, b: seq<Token>, prop: string, name: string, r: real, p: seq<Member>, n: Node, m: Node)
    requires RunClauses(b, p, n) == Some(m) && Find(p, name) == Above(r) && r >= UNSET
    ensures RunClauses(b + When(r != UNSET, Clause(inSet, prop, name)), p, n) ==
            Some(if r == UNSET then m else SetProp(m, prop, Real(r)))
  {
    hide RunClauses, Find, SetProp, When, Set, More;
    RunWhen(b, r != UNSET, prop, name, p, n);
  }

  function FirstClauses(inSet: bool, b: seq<Token>, scn: Scene): seq<Token> {
    b + When(scn.name != "", Clause(inSet, "name", "inp_name")) +
    When(scn.latitude != UNSET, Clause(inSet, "latitude", "inp_lat")) +
    When(scn.longitude != UNSET, Clause(inSet, "longitude", "inp_long"))
  }

  function SecondClauses(inSet: bool, b: seq<Token>, scn: Scene): seq<Token> {
    b + When(scn.region != "", Clause(inSet, "region", "inp_region")) +
    When(scn.description != "", Clause(inSet, "description", "inp_description")) +
    When(scn.user != "", Clause(inSet, "user", "inp_user")) +
    When(scn.thumbnail != "", Clause(inSet, "thumbnail", "inp_thumbnail"))
  }

  lemma RunFirstClauses(inSet: bool, b: seq<Token>, key: string, scn: Scene, p: seq<Member>, n: Node, m: Node)
    requires Holds(key, scn, p) && PlacesGiven(scn) && RunClauses(b, p, n) == Some(m)
    ensures RunClauses(FirstClauses(inSet, b, scn), p, n) ==
            Some(m.(name := Kept(m.name, scn.name), latitude := KeptPlace(m.latitude, scn.latitude),
                    longitude := KeptPlace(m.longitude, scn.longitude)))
  {
    hide RunClauses, SetProp, When, Clause, Find;
    var m1 := m.(name := Kept(m.name, scn.name));
    SetTexts(m, scn.name);
    RunText(inSet, b, "name", "inp_name", scn.name, p, n, m);
    var b1 := b + When(scn.name != "", Clause(inSet, "name", "inp_name"));
    var m2 := m1.(latitude := KeptPlace(m1.latitude, scn.latitude));
    SetOthers(m1, true, scn.latitude, []);
    RunPlace(inSet, b1, "latitude", "inp_lat", scn.latitude, p, n, m1);
    var b2 := b1 + When(scn.latitude != UNSET, Clause(inSet, "latitude", "inp_lat"));
    SetOthers(m2, true, scn.longitude, []);
    RunPlace(inSet, b2, "longitude", "inp_long", scn.longitude, p, n, m2);
  }

  lemma RunSecondClauses(inSet: bool, b: seq<Token>, key: string, scn: Scene, p: seq<Member>, n: Node, m: Node)
    requires Holds(key, scn, p) && RunClauses(b, p, n) == Some(m)
    ensures RunClauses(SecondClauses(inSet, b, scn), p, n) ==
            Some(m.(region := Kept(m.region, scn.region), description := Kept(m.description, scn.description),
                    user := Kept(m.user, scn.user), thumbnail := Kept(m.thumbnail, scn.thumbnail)))
  {
    hide RunClauses, SetProp, When, Clause, Find;
    var m1 := m.(region := Kept(m.region, scn.region));
    SetTexts(m, scn.region);
    RunText(inSet, b, "region", "inp_region", scn.region, p, n, m);
    var b1 := b + When(scn.region != "", Clause(inSet, "region", "inp_region"));
    var m2 := m1.(description := Kept(m1.description, scn.description));
    SetTexts(m1, scn.description);
    RunText(inSet, b1, "description", "inp_description", scn.description, p, n, m1);
    var b2 := b1 + When(scn.description != "", Clause(inSet, "description", "inp_description"));
    var m3 := m2.(user := Kept(m2.user, scn.user));
    SetTexts(m2, scn.user);
    RunText(inSet, b2, "user", "inp_user", scn.user, p, n, m2);
    var b3 := b2 + When(scn.user != "", Clause(inSet, "user", "inp_user"));
    SetTexts(m3, scn.thumbnail);
    RunText(inSet, b3, "thumbnail", "inp_thumbnail", scn.thumbnail, p, n, m3);
  }

  lemma RunFirst(clause: Token, name: string, p: seq<Member>, n: Node)
    requires !clause.FilterOut?
    ensures RunClauses([clause, Param(name)], p, n) == RunOne(clause, Find(p, name), n)
  {
    hide RunOne, Find;
  }

  /** A flag that is always set. */
  lemma RunFlag(inSet: bool, b: seq<Token>, prop: string, name: string, flag: bool, p: seq<Member>, n: Node, m: Node)
    requires RunClauses(b, p, n) == Some(m) && Find(p, name) == Some(Bool(flag))
    ensures RunClauses(b + Clause(inSet, prop, name), p, n) == Some(SetProp(m, prop, Bool(flag)))
  {
    hide RunClauses, Find, SetProp;
    RunThree(b, Assign(prop), name, p, n);
    RunThree(b, Prop(prop), name, p, n);
  }

  const UPDATE_START := [Assign("active"), Param("inp_active")]
  const CREATE_START := [Prop("key"), Param("inp_key")]

  /** UPDATE: the flags, the texts and the places. */
  lemma UpdatingRuns(key: string, scn: Scene, p: seq<Member>, n: Node)
    requires Holds(key, scn, p) && PlacesGiven(scn)
    ensures RunClauses(UpdatingFields(UPDATE_START, scn), p, n) == Some(Overlaid(n, scn))
  {
    hide RunClauses, SetProp, When, Find, Kept, KeptPlace;
    RunFirst(Assign("active"), "inp_active", p, n);
    SetOthers(n, scn.active, 0.0, []);
    var m0 := n.(active := Some(scn.active));
    SetOthers(m0, scn.isPublic, 0.0, []);
    RunFlag(true, UPDATE_START, "public", "inp_public", scn.isPublic, p, n, m0);
    var b0 := UPDATE_START + Clause(true, "public", "inp_public");
    var m1 := m0.(isPublic := Some(scn.isPublic));
    RunFirstClauses(true, b0, key, scn, p, n, m1);
    var m2 := m1.(name := Kept(m1.name, scn.name), latitude := KeptPlace(m1.latitude, scn.latitude),
                  longitude := KeptPlace(m1.longitude, scn.longitude));
    RunSecondClauses(true, FirstClauses(true, b0, scn), key, scn, p, n, m2);
  }

  lemma RunList(b: seq<Token>, prop: string, name: string, given: seq<string>, p: seq<Member>, n: Node, m: Node)
    requires RunClauses(b, p, n) == Some(m) && (given != [] ==> Find(p, name) == Some(Arr(Texts(given))))
    ensures RunClauses(b + When(given != [], More(prop, name)), p, n) ==
            Some(if given == [] then m else SetProp(m, prop, Arr(Texts(given))))
  {
    hide RunClauses, Find, SetProp, When, More, Texts;
    RunWhen(b, given != [], prop, name, p, n);
  }

  /** CREATE: the key and everything that is given. */
  lemma CreatingRuns(key: string, scn: Scene, p: seq<Member>)
    requires Holds(key, scn, p) && PlacesGiven(scn) && key != ""
    ensures RunClauses(CreatingFields(CREATE_START, scn), p, BLANK) == Some(Created(key, scn))
  {
    hide RunClauses, SetProp, When, Find, Kept, KeptPlace, Texts;
    RunFirst(Prop("key"), "inp_key", p, BLANK);
    SetTexts(BLANK, key);
    var k := BLANK.(key := key);
    RunFlag(false, CREATE_START, "public", "inp_public", scn.isPublic, p, BLANK, k);
    SetOthers(k, scn.isPublic, 0.0, []);
    var a := CREATE_START + Clause(false, "public", "inp_public");
    var k1 := k.(isPublic := Some(scn.isPublic));
    RunFlag(false, a, "active", "inp_active", scn.active, p, BLANK, k1);
    SetOthers(k1, scn.active, 0.0, []);
    var b0 := a + Clause(false, "active", "inp_active");
    var m1 := k1.(active := Some(scn.active));
    RunFirstClauses(false, b0, key, scn, p, BLANK, m1);
    var m2 := m1.(name := Kept(m1.name, scn.name), latitude := KeptPlace(m1.latitude, scn.latitude),
                  longitude := KeptPlace(m1.longitude, scn.longitude));
    var b1 := FirstClauses(false, b0, scn);
    RunSecondClauses(false, b1, key, scn, p, BLANK, m2);
    var m3 := Overlaid(k, scn);
    var b2 := SecondClauses(false, b1, scn);
    SetOthers(m3, true, 0.0, scn.assets);
    RunList(b2, "assets", "inp_assets", scn.assets, p, BLANK, m3);
    var m4 := m3.(assets := KeptList(None, scn.assets));
    SetOthers(m4, true, 0.0, scn.tags);
    RunList(b2 + When(scn.assets != [], More("assets", "inp_assets")), "tags", "inp_tags", scn.tags, p, BLANK, m4);
  }

  // ---------------------------------------------------------------- the two queries

  /** A closed CREATE stores exactly the given fields of the scene, each under its own property. */
  lemma CreateStores(key: string, opType: Int32, scn: Scene, skip: Int32, limit: Int32)
    requires key != "" && !Unbound(key, CreateOp, scn)
    ensures var clauses := CreatingFields(CREATE_START, scn);
      && Generated(key, CreateOp, opType, scn) == [CreateNode, MapOpen] + clauses + [MapClose, NodeClose] + [Return]
      && RunClauses(clauses, Params(key, CreateOp, scn, skip, limit), BLANK) == Some(Created(key, scn))
  {
    hide RunClauses, Find, Params, CreatingFields, Created;
    ParamsHold(key, CreateOp, scn, skip, limit);
    CreatingRuns(key, scn, Params(key, CreateOp, scn, skip, limit));
    assert Keyed(key, CreateOp, scn) == [CreateNode, MapOpen] + CREATE_START;
    CreatingShift([CreateNode, MapOpen], CREATE_START, scn);
  }

  /** A node after an update: given fields replace what was there, lists grow or shrink, the rest stays. */
  function Updated(n: Node, scn: Scene, opType: Int32): Node {
    Overlaid(n, scn).(assets := Changed(n.assets, scn.assets, opType), tags := Changed(n.tags, scn.tags, opType))
  }

  function UpdateClauses(scn: Scene, opType: Int32): seq<Token> {
    UpdatingFields(UPDATE_START, scn) +
    Changes("assets", "inp_assets", |scn.assets|, opType) + Changes("tags", "inp_tags", |scn.tags|, opType)
  }

  const UPDATE_HEAD := [MatchNode, MapOpen, Prop("key"), Param("inp_key"), MapClose, NodeClose, SetWord]

  lemma UpdateTokens(key: string, opType: Int32, scn: Scene)
    requires key != ""
    ensures Generated(key, UpdateOp, opType, scn) == UPDATE_HEAD + UpdateClauses(scn, opType) + [Return]
  {
    hide UpdatingFields, Changes;
    assert Keyed(key, UpdateOp, scn) + SET_START == UPDATE_HEAD + UPDATE_START;
    UpdatingShift(UPDATE_HEAD, UPDATE_START, scn);
    var f := UpdatingFields(UPDATE_START, scn);
    var a, t := Changes("assets", "inp_assets", |scn.assets|, opType), Changes("tags", "inp_tags", |scn.tags|, opType);
    Assoc(UPDATE_HEAD, f, a);
    Assoc(UPDATE_HEAD, f + a, t);
  }

  lemma UpdateRuns(key: string, opType: Int32, scn: Scene, p: seq<Member>, n: Node)
    requires Holds(key, scn, p) && PlacesGiven(scn)
    ensures RunClauses(UpdateClauses(scn, opType), p, n) == Some(Updated(n, scn, opType))
  {
    hide RunClauses, Find, UpdatingFields, Changes, Changed, Overlaid, Texts;
    UpdatingRuns(key, scn, p, n);
    var m := Overlaid(n, scn);
    var f := UpdatingFields(UPDATE_START, scn);
    RunChanges(f, "assets", "inp_assets", scn.assets, opType, p, n);
    RunChanges(f + Changes("assets", "inp_assets", |scn.assets|, opType), "tags", "inp_tags", scn.tags, opType, p, n);
    OverlaidLists(n, scn);
  }

  lemma OverlaidLists(n: Node, scn: Scene)
    ensures Overlaid(n, scn).assets == n.assets && Overlaid(n, scn).tags == n.tags && Overlaid(n, scn).key == n.key
  {
  }

  /** A closed UPDATE changes the node exactly so, whatever the node. */
  lemma UpdateSets(key: string, opType: Int32, scn: Scene, n: Node, skip: Int32, limit: Int32)
    requires key != "" && !Unbound(key, UpdateOp, scn)
    ensures Generated(key, UpdateOp, opType, scn) == UPDATE_HEAD + UpdateClauses(scn, opType) + [Return]
    ensures RunClauses(UpdateClauses(scn, opType), Params(key, UpdateOp, scn, skip, limit), n) ==
            Some(Updated(n, scn, opType))
  {
    hide RunClauses, Generated, UpdateClauses, Params, Updated;
    UpdateTokens(key, opType, scn);
    ParamsHold(key, UpdateOp, scn, skip, limit);
    UpdateRuns(key, opType, scn, Params(key, UpdateOp, scn, skip, limit), n);
  }

  /** The update, property by property: a given one replaces, an empty or -9999 one leaves what there
      was, and a list grows by (10), loses (11) or ignores what is given. */
  lemma UpdatedFields(n: Node, scn: Scene, opType: Int32)
    ensures var m := Updated(n, scn, opType);
      && m.key == n.key && m.active == Some(scn.active) && m.isPublic == Some(scn.isPublic)
      && m.name == (if scn.name == "" then n.name else Some(scn.name))
      && m.region == (if scn.region == "" then n.region else Some(scn.region))
      && m.description == (if scn.description == "" then n.description else Some(scn.description))
      && m.user == (if scn.user == "" then n.user else Some(scn.user))
      && m.thumbnail == (if scn.thumbnail == "" then n.thumbnail else Some(scn.thumbnail))
      && m.latitude == (if scn.latitude == -9999.0 then n.latitude else Some(scn.latitude))
      && m.longitude == (if scn.longitude == -9999.0 then n.longitude else Some(scn.longitude))
      && ListChanged(n.assets, m.assets, scn.assets, opType) && ListChanged(n.tags, m.tags, scn.tags, opType)
  {
    RestIs(Or(n.assets, []), scn.assets);
    RestIs(Or(n.tags, []), scn.tags);
  }

  /** The list after an update with what was given. */
  ghost predicate ListChanged(was: Option<seq<string>>, now: Option<seq<string>>, given: seq<string>, opType: Int32) {
    if given == [] || (opType != 10 && opType != 11) then now == was
    else if opType == 10 then now == Some((if was.Some? then was.value else []) + given)
    else
      && (now.Some? <==> was.Some?)
      && (was.Some? ==> forall x :: x in now.value <==> x in was.value && x !in given)
  }

  /** A created scene, property by property: what is given, under the key. */
  lemma CreatedFields(key: string, scn: Scene)
    ensures var m := Created(key, scn);
      && m.key == key && m.active == Some(scn.active) && m.isPublic == Some(scn.isPublic)
      && m.name == (if scn.name == "" then None else Some(scn.name))
      && m.region == (if scn.region == "" then None else Some(scn.region))
      && m.description == (if scn.description == "" then None else Some(scn.description))
      && m.user == (if scn.user == "" then None else Some(scn.user))
      && m.thumbnail == (if scn.thumbnail == "" then None else Some(scn.thumbnail))
      && m.latitude == (if scn.latitude == -9999.0 then None else Some(scn.latitude))
      && m.longitude == (if scn.longitude == -9999.0 then None else Some(scn.longitude))
      && m.assets == (if scn.assets == [] then None else Some(scn.assets))
      && m.tags == (if scn.tags == [] then None else Some(scn.tags))
  {
  }

  lemma {:induction false} RestConcat(a: seq<string>, b: seq<string>, gone: seq<string>)
    ensures Rest(a + b, gone) == Rest(a, gone) + Rest(b, gone)
  {
    if b == [] {
      assert a + b == a;
    } else {
      var k := |b| - 1;
      RestConcat(a, b[..k], gone);
      var all := a + b;
      assert all[..|all| - 1] == a + b[..k] && all[|all| - 1] == b[k];
      assert Rest(all, gone) == Rest(a + b[..k], gone) + (if b[k] in gone then [] else [b[k]]);
    }
  }

  lemma {:induction false} RestIs(list: seq<string>, gone: seq<string>)
    ensures forall x :: x in Rest(list, gone) <==> x in list && x !in gone
    ensures (forall x <- list :: x !in gone) ==> Rest(list, gone) == list
    ensures (forall x <- list :: x in gone) ==> Rest(list, gone) == []
  {
    if list != [] {
      var k := |list| - 1;
      RestIs(list[..k], gone);
      assert list == list[..k] + [list[k]];
    }
  }

  /** Removing what was appended brings the list back exactly when none of it was there before. */
  lemma RemoveUndoesAppend(list: Option<seq<string>>, given: seq<string>)
    requires given != []
    ensures Changed(Changed(list, given, APPEND), given, REMOVE) == Some(Or(list, [])) <==>
            forall x <- Or(list, []) :: x !in given
  {
    RestConcat(Or(list, []), given, given);
    RestIs(Or(list, []), given);
    RestIs(given, given);
    assert Rest(Or(list, []), given) + [] == Rest(Or(list, []), given);
  }

  // ---------------------------------------------------------------- create, then get

  /** What a retrieval gives back of a created scene: everything that was stored, but not whether it
      is public, the distance, the transform or the devices. */
  lemma CreatedComesBack(key: string, scn: Scene)
    ensures Assigned(Created(key, scn)) ==
            scn.(key := key, isPublic := true, distance := 0.0, transform := None, devices := [])
  {
  }

  lemma {:induction false} NoneMatching(f: Scene, store: seq<Node>, p: seq<Member>)
    requires Find(p, "inp_key") == Some(Str(f.key)) && forall n <- store :: n.key != f.key
    ensures Matching(KeyedMatch(f), store, p) == []
  {
    hide Find, Visibility;
    if store != [] {
      var n := store[|store| - 1];
      NoneMatching(f, store[..|store| - 1], p);
      assert Equals("key", "inp_key") in KeyedMatch(f);
      assert n in store && !EqualsHolds(Equals("key", "inp_key"), p, n);
    }
  }

  lemma VisibleMeans(f: Scene, p: seq<Member>, n: Node)
    requires Find(p, "inp_public") == Some(Bool(f.isPublic))
    requires f.user != "" ==> Find(p, "inp_user") == Some(Str(f.user))
    ensures (forall e <- Visibility(f) :: EqualsHolds(e, p, n)) <==> Visible(f, n)
  {
    hide Find;
    var u, q := Equals("user", "inp_user"), Equals("public", "inp_public");
    assert u in Visibility(f) <==> f.user != "" && !f.isPublic;
    assert q in Visibility(f) <==> f.isPublic;
  }

  /** A scene created under a new key is found by a get on that key exactly when the get's visibility
      fits, and then it is what the client is shown. */
  lemma CreateThenGet(key: string, scn: Scene, f: Scene, store: seq<Node>, arc: Arc, id: string, port: Int32)
    requires key != "" && f.key == key && (f.isPublic || f.user != "") && forall n <- store :: n.key != key
    ensures var answer := Retrieve(Request([f], 0, 10, id), store + [Created(key, scn)], arc, port);
      if Visible(f, Created(key, scn))
      then answer.Found? && answer.list.scenes ==
             [scn.(key := key, isPublic := true, distance := 0.0, transform := None, devices := [])]
      else answer == Failed(NOT_FOUND)
  {
    hide Find, Params, Created, Visible, Assigned, Matching, KeyedMatch, Execute;
    var n := Created(key, scn);
    var p := Params(key, GetOp, f, 0, 10);
    ParamsHold(key, GetOp, f, 0, 10);
    CreatedKey(key, scn);
    KeyedSelects(f, Request([f], 0, 10, id), store + [n], arc);
    LastMatching(f, store, n, p);
    CreatedComesBack(key, scn);
  }

  lemma CreatedKey(key: string, scn: Scene)
    ensures Created(key, scn).key == key
  {
  }

  lemma LastMatching(f: Scene, store: seq<Node>, n: Node, p: seq<Member>)
    requires Holds(f.key, f, p) && f.key != "" && n.key == f.key && forall m <- store :: m.key != f.key
    ensures Matching(KeyedMatch(f), store + [n], p) == if Visible(f, n) then [n] else []
  {
    hide Find, Visibility, Visible;
    NoneMatching(f, store, p);
    VisibleMeans(f, p, n);
    assert (store + [n])[..|store|] == store;
    assert EqualsHolds(Equals("key", "inp_key"), p, n);
    assert (forall e <- KeyedMatch(f) :: EqualsHolds(e, p, n)) <==> forall e <- Visibility(f) :: EqualsHolds(e, p, n);
  }
}
