/**
 JSON at the level of a streaming writer: the events it is given and the tree they stand for
 (objects and arrays nest as in sections 4 and 5 of RFC 8259).
 */
module Json {
  import opened Wrappers

  datatype Tree =
    | Bool(b: bool)
    | Num(n: int)
    | Real(r: real)
    | Str(s: string)
    | Arr(items: seq<Tree>)
    | Obj(members: seq<Member>)

  datatype Member = Member(name: string, value: Tree)

  datatype Event = StartObject | EndObject | StartArray | EndArray | Key(name: string) | Scalar(value: Tree)

  predicate IsScalar(t: Tree) {
    !t.Arr? && !t.Obj?
  }

  // ---------------------------------------------------------------- writing

  function Emit(t: Tree): seq<Event>
    decreases t, 0
  {
    match t
    case Arr(items) => [StartArray] + EmitItems(items) + [EndArray]
    case Obj(members) => [StartObject] + EmitMembers(members) + [EndObject]
    case _ => [Scalar(t)]
  }

  function EmitItems(items: seq<Tree>): seq<Event>
    decreases items, 1
  {
    if items == [] then [] else Emit(items[0]) + EmitItems(items[1..])
  }

  function EmitMembers(members: seq<Member>): seq<Event>
    decreases members, 1
  {
    if members == [] then []
    else
      [Key(members[0].name)] + Emit(members[0].value) + EmitMembers(members[1..])
  }

  // ---------------------------------------------------------------- reading

  datatype Reading<T> = Reading(value: T, rest: seq<Event>)

  /** One value from the front of the events. */
  function Read(es: seq<Event>): (r: Option<Reading<Tree>>)
    ensures r.Some? ==> |r.value.rest| < |es|
    decreases |es|, 0
  {
    if es == [] then None
    else
      match es[0]
      case Scalar(t) => if IsScalar(t) then Some(Reading(t, es[1..])) else None
      case StartArray =>
        var r := ReadItems(es[1..]);
        if r.None? then None else Some(Reading(Arr(r.value.value), r.value.rest))
      case StartObject =>
        var r := ReadMembers(es[1..]);
        if r.None? then None else Some(Reading(Obj(r.value.value), r.value.rest))
      case _ => None
  }

  /** The values up to the end of an array. */
  function ReadItems(es: seq<Event>): (r: Option<Reading<seq<Tree>>>)
    ensures r.Some? ==> |r.value.rest| < |es|
    decreases |es|, 1
  {
    if es == [] then None
    else if es[0] == EndArray then Some(Reading([], es[1..]))
    else
      var first := Read(es);
      if first.None? then None
      else
        var more := ReadItems(first.value.rest);
        if more.None? then None else Some(Reading([first.value.value] + more.value.value, more.value.rest))
  }

  /** The members up to the end of an object. */
  function ReadMembers(es: seq<Event>): (r: Option<Reading<seq<Member>>>)
    ensures r.Some? ==> |r.value.rest| < |es|
    decreases |es|, 1
  {
    if es == [] then None
    else if es[0] == EndObject then Some(Reading([], es[1..]))
    else if !es[0].Key? then None
    else
      var first := Read(es[1..]);
      if first.None? then None
      else
        var more := ReadMembers(first.value.rest);
        if more.None? then None
        else Some(Reading([Member(es[0].name, first.value.value)] + more.value.value, more.value.rest))
  }

  // ---------------------------------------------------------------- each undoes the other

  lemma {:induction false} EmitStarts(t: Tree)
    ensures Emit(t) != [] && Emit(t)[0] != EndArray
  {
  }

  /** Reading what was written gives back the tree, whatever follows. */
  lemma {:induction false} ReadEmit(t: Tree, rest: seq<Event>)
    ensures Read(Emit(t) + rest) == Some(Reading(t, rest))
    decreases t, 0
  {
    var es := Emit(t) + rest;
    match t {
    case Arr(items) =>
      assert es[1..] == EmitItems(items) + ([EndArray] + rest);
      ReadEmitItems(items, rest);
    case Obj(members) =>
      assert es[1..] == EmitMembers(members) + ([EndObject] + rest);
      ReadEmitMembers(members, rest);
    case _ =>
      assert es[1..] == rest;
    }
  }

  lemma {:induction false} ReadEmitItems(items: seq<Tree>, rest: seq<Event>)
    ensures ReadItems(EmitItems(items) + ([EndArray] + rest)) == Some(Reading(items, rest))
    decreases items, 1
  {
    var es := EmitItems(items) + ([EndArray] + rest);
    if items == [] {
      assert es == [EndArray] + rest;
      assert es[1..] == rest;
    } else {
      var tail := EmitItems(items[1..]) + ([EndArray] + rest);
      assert es == Emit(items[0]) + tail;
      EmitStarts(items[0]);
      ReadEmit(items[0], tail);
      ReadEmitItems(items[1..], rest);
      assert [items[0]] + items[1..] == items;
    }
  }

  lemma {:induction false} ReadEmitMembers(members: seq<Member>, rest: seq<Event>)
    ensures ReadMembers(EmitMembers(members) + ([EndObject] + rest)) == Some(Reading(members, rest))
    decreases members, 1
  {
    var es := EmitMembers(members) + ([EndObject] + rest);
    if members == [] {
      assert es == [EndObject] + rest;
      assert es[1..] == rest;
    } else {
      var tail := EmitMembers(members[1..]) + ([EndObject] + rest);
      assert es[1..] == Emit(members[0].value) + tail;
      ReadEmit(members[0].value, tail);
      ReadEmitMembers(members[1..], rest);
      assert [Member(members[0].name, members[0].value)] + members[1..] == members;
    }
  }

  /** Whatever is read was written that way: no other events give the tree. */
  lemma {:induction false} EmitRead(es: seq<Event>)
    ensures Read(es).Some? ==> es == Emit(Read(es).value.value) + Read(es).value.rest
    decreases |es|, 0
  {
    hide EmitItems, EmitMembers, ReadItems, ReadMembers;
    if es != [] && Read(es).Some? {
      match es[0] {
      case StartArray => EmitReadItems(es[1..]);
      case StartObject => EmitReadMembers(es[1..]);
      case _ =>
      }
      assert es == [es[0]] + es[1..];
    }
  }

  lemma {:induction false} EmitReadItems(es: seq<Event>)
    ensures var r := ReadItems(es);
      r.Some? ==> es == EmitItems(r.value.value) + ([EndArray] + r.value.rest)
    decreases |es|, 1
  {
    var r := ReadItems(es);
    if r.Some? && es[0] != EndArray {
      var first := Read(es);
      EmitRead(es);
      EmitReadItems(first.value.rest);
      var items := r.value.value;
      assert items[1..] == ReadItems(first.value.rest).value.value;
    }
  }

  lemma {:induction false} EmitReadMembers(es: seq<Event>)
    ensures var r := ReadMembers(es);
      r.Some? ==> es == EmitMembers(r.value.value) + ([EndObject] + r.value.rest)
    decreases |es|, 1
  {
    hide Read, Emit;
    var r := ReadMembers(es);
    if r.Some? && es[0] != EndObject {
      var first := Read(es[1..]);
      EmitRead(es[1..]);
      EmitReadMembers(first.value.rest);
      var members := r.value.value;
      assert members[1..] == ReadMembers(first.value.rest).value.value;
      assert es == [es[0]] + es[1..];
    }
  }

  lemma {:induction false} EmitItemsConcat(a: seq<Tree>, b: seq<Tree>)
    ensures EmitItems(a + b) == EmitItems(a) + EmitItems(b)
  {
    if a == [] {
      assert a + b == b;
    } else {
      assert (a + b)[1..] == a[1..] + b;
      EmitItemsConcat(a[1..], b);
    }
  }

  lemma {:induction false} EmitMembersConcat(a: seq<Member>, b: seq<Member>)
    ensures EmitMembers(a + b) == EmitMembers(a) + EmitMembers(b)
  {
    if a == [] {
      assert a + b == b;
    } else {
      assert (a + b)[1..] == a[1..] + b;
      EmitMembersConcat(a[1..], b);
    }
  }

  // ---------------------------------------------------------------- members

  /** FindMember: the first member of that name. A value that is not an object has none. */
  function Find(members: seq<Member>, name: string): Option<Tree> {
    if members == [] then None
    else if members[0].name == name then Some(members[0].value)
    else Find(members[1..], name)
  }

  function MembersOf(t: Tree): seq<Member> {
    if t.Obj? then t.members else []
  }

  /** A member that may be left out. */
  datatype Field = Field(name: string, value: Option<Tree>)

  function Keep(fields: seq<Field>): seq<Member> {
    if fields == [] then []
    else
      var n := |fields| - 1;
      Keep(fields[..n]) + if fields[n].value.None? then [] else [Member(fields[n].name, fields[n].value.value)]
  }

  ghost predicate Named(fields: seq<Field>, names: seq<string>) {
    && |fields| == |names|
    && (forall i :: 0 <= i < |fields| ==> fields[i].name == names[i])
    && (forall i, j :: 0 <= i < j < |names| ==> names[i] != names[j])
  }

  lemma {:induction false} FindConcat(a: seq<Member>, b: seq<Member>, name: string)
    ensures Find(a + b, name) == if Find(a, name).Some? then Find(a, name) else Find(b, name)
  {
    if a == [] {
      assert a + b == b;
    } else {
      assert (a + b)[1..] == a[1..] + b;
      FindConcat(a[1..], b, name);
    }
  }

  lemma {:induction false} FindOther(fields: seq<Field>, name: string)
    requires forall i :: 0 <= i < |fields| ==> fields[i].name != name
    ensures Find(Keep(fields), name) == None
  {
    if fields != [] {
      var n := |fields| - 1;
      FindOther(fields[..n], name);
      var last := if fields[n].value.None? then [] else [Member(fields[n].name, fields[n].value.value)];
      FindConcat(Keep(fields[..n]), last, name);
    }
  }

  /** What is found under a field's name is that field's value, or nothing if it was left out. */
  lemma {:induction false} FindField(fields: seq<Field>, names: seq<string>, i: nat)
    requires Named(fields, names) && i < |fields|
    ensures Find(Keep(fields), names[i]) == fields[i].value
  {
    var n := |fields| - 1;
    var last := if fields[n].value.None? then [] else [Member(fields[n].name, fields[n].value.value)];
    FindConcat(Keep(fields[..n]), last, names[i]);
    if i < n {
      FindField(fields[..n], names[..n], i);
      assert Find(last, names[i]) == None;
    } else {
      FindOther(fields[..n], names[i]);
    }
  }

  /** Two objects with the same names are the same exactly when their fields are. */
  lemma FieldsDetermined(f: seq<Field>, g: seq<Field>, names: seq<string>)
    requires Named(f, names) && Named(g, names)
    ensures Keep(f) == Keep(g) <==> forall i :: 0 <= i < |f| ==> f[i].value == g[i].value
  {
    if Keep(f) == Keep(g) {
      forall i | 0 <= i < |f|
        ensures f[i].value == g[i].value
      {
        FindField(f, names, i);
        FindField(g, names, i);
      }
    }
    if forall i :: 0 <= i < |f| ==> f[i].value == g[i].value {
      assert f == g;
    }
  }
}
