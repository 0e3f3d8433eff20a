/** Parse trees and the JSON values they are written as, with a reader back. */
module JsonTrees {
  import opened Common
  import opened Json
  import opened JsonWriter

  datatype Node =
    | Null
    | List(items: seq<Node>)
    | IntList(ints: seq<int>)
    | OidList(oids: seq<nat>)
    | Integer(ival: int)
    | Float(text: Option<string>)
    | String(text: Option<string>)
    | BitString(text: Option<string>)
    | NullValue
    | Struct(tag: Ident, fields: seq<Field>)

  datatype Field = Field(name: Ident, value: Value)

  /** A field's value, by the macro that writes it: `Absent` is a NULL list or a NULL
      pointer to a struct, `Part` a struct written in place or through a pointer. */
  datatype Value =
    | Num(n: int)
    | Chr(c: char)
    | Enum(constant: Ident)
    | Flag(b: bool)
    | Str(str: Option<string>)
    | Absent
    | ListOf(items: seq<Node>)
    | NodeHere(node: Node)
    | NodeAt(node: Node)
    | Part(part: seq<Field>)

  // ----- the intended value

  function TagOf(n: Node): Ident
    requires n != Null
  {
    match n
    case List(_) => "List"
    case IntList(_) => "IntList"
    case OidList(_) => "OidList"
    case Integer(_) => "Integer"
    case Float(_) => "Float"
    case String(_) => "String"
    case BitString(_) => "BitString"
    case NullValue => "Null"
    case Struct(tag, _) => tag
  }

  function Body(n: Node): seq<Member>
    requires n != Null
    decreases n, 1
  {
    match n
    case List(items) => [Member("items", JArray(ItemsJson(items)))]
    case IntList(ints) => [Member("items", JArray(Numbers(ints)))]
    case OidList(oids) => [Member("items", JArray(Numbers(oids)))]
    case Integer(i) => [Member("ival", JNumber(i))]
    case Float(t) => [Member("str", TokenJson(t))]
    case String(t) => [Member("str", TokenJson(t))]
    case BitString(t) => [Member("str", TokenJson(t))]
    case NullValue => []
    case Struct(_, fields) => FieldsJson(fields)
  }

  /** A node is an object with its tag as the only member. */
  function NodeJson(n: Node): Json
    decreases n, 2
  {
    if n == Null then JNull else Tagged(TagOf(n), Body(n))
  }

  function Tagged(tag: string, ms: seq<Member>): Json {
    JObject([Member(tag, JObject(ms))])
  }

  function Numbers(ns: seq<int>): seq<Json> {
    if ns == [] then [] else Numbers(ns[..|ns| - 1]) + [JNumber(ns[|ns| - 1])]
  }

  /** NULL list items become empty objects. */
  function ItemJson(n: Node): Json
    decreases n, 3
  {
    if n == Null then JObject([]) else NodeJson(n)
  }

  function ItemsJson(items: seq<Node>): (r: seq<Json>)
    decreases items, 0
  {
    if items == [] then [] else ItemsJson(items[..|items| - 1]) + [ItemJson(items[|items| - 1])]
  }

  /** Fields with default values are left out. */
  function FieldJson(f: Field): Option<Json>
    decreases f, 1
  {
    match f.value
    case Num(n) => if n != 0 then Some(JNumber(n)) else None
    case Chr(c) => if c != '\0' then Some(JChar(c)) else None
    case Enum(constant) => Some(JString(constant))
    case Flag(b) => if b then Some(JBool(true)) else None
    case Str(s) => if s.Some? then Some(JString(s.value)) else None
    case Absent => None
    case ListOf(items) => Some(JArray(ItemsJson(items)))
    case NodeHere(n) => Some(NodeJson(n))
    case NodeAt(n) => if n == Null then None else Some(NodeJson(n))
    case Part(part) => Some(JObject(FieldsJson(part)))
  }

  function FieldsJson(fields: seq<Field>): (r: seq<Member>)
    decreases fields, 0
  {
    if fields == [] then []
    else
      var last := fields[|fields| - 1];
      FieldsJson(fields[..|fields| - 1]) + OptionalMember(last.name, FieldJson(last))
  }

  // ----- single characters

  /** Single-character fields are printed between quotes without escaping: what is needed
      for them to be read back. */
  ghost predicate NodeOk(n: Node) {
    match n
    case List(items) => forall i :: 0 <= i < |items| ==> NodeOk(items[i])
    case Struct(_, fields) => forall i :: 0 <= i < |fields| ==> FieldOk(fields[i])
    case _ => true
  }

  ghost predicate FieldOk(f: Field) {
    match f.value
    case Chr(c) => c == '\0' || IsPlain(c)
    case ListOf(items) => forall i :: 0 <= i < |items| ==> NodeOk(items[i])
    case NodeHere(n) => NodeOk(n)
    case NodeAt(n) => NodeOk(n)
    case Part(part) => forall i :: 0 <= i < |part| ==> FieldOk(part[i])
    case _ => true
  }

  ghost predicate EachOk(items: seq<Node>) {
    forall i :: 0 <= i < |items| ==> NodeOk(items[i])
  }

  ghost predicate FieldsOk(fields: seq<Field>) {
    forall i :: 0 <= i < |fields| ==> FieldOk(fields[i])
  }

  lemma {:induction false} NodeOkIff(n: Node)
    ensures Plain(NodeJson(n)) <==> NodeOk(n)
    decreases n, 1
  {
    hide ItemsJson, FieldsJson, NodeJson, FieldOk;
    TaggedPlain(n);
    match n {
      case List(items) =>
        ItemsOkIff(items);
        AllPlainIff(ItemsJson(items));
        PlainArray(ItemsJson(items));
        hide Plain, AllPlain, PlainMembers;
        assert Body(n) == [Member("items", JArray(ItemsJson(items)))];
      case IntList(ints) => PlainNumbersBody(ints);
      case OidList(oids) => PlainNumbersBody(oids);
      case Struct(_, fields) =>
        FieldsOkIff(fields);
        PlainMembersIff(FieldsJson(fields));
        hide Plain, PlainMembers;
        assert Body(n) == FieldsJson(fields);
      case Null =>
      case Integer(i) =>
      case Float(t) =>
      case String(t) =>
      case BitString(t) =>
      case NullValue => PlainMembersIff([]);
    }
  }

  lemma TaggedPlain(n: Node)
    ensures Plain(NodeJson(n)) <==> n == Null || PlainMembers(Body(n))
  {
    hide Body;
    if n != Null {
      PlainMembersIff([Member(TagOf(n), JObject(Body(n)))]);
    }
  }

  lemma PlainArray(items: seq<Json>)
    ensures Plain(JArray(items)) <==> AllPlain(items)
  {}

  lemma PlainNumbersBody(ns: seq<int>)
    ensures PlainMembers([Member("items", JArray(Numbers(ns)))])
  {
    NumbersPlain(ns);
    AllPlainIff(Numbers(ns));
    PlainMembersIff([Member("items", JArray(Numbers(ns)))]);
  }

  lemma {:induction false} NumbersPlain(ns: seq<int>)
    ensures EachPlain(Numbers(ns))
  {
    if ns != [] { NumbersPlain(ns[..|ns| - 1]); }
  }

  lemma {:induction false} ItemsOkIff(items: seq<Node>)
    ensures EachPlain(ItemsJson(items)) <==> EachOk(items)
    decreases items, 0
  {
    hide Plain, NodeJson;
    if items != [] {
      var front, last := items[..|items| - 1], items[|items| - 1];
      ItemsOkIff(front);
      NodeOkIff(last);
      ItemPlain(last);
      assert ItemsJson(items) == ItemsJson(front) + [ItemJson(last)];
      AllOfSnoc(ItemsJson(front), ItemJson(last));
      assert front + [last] == items;
    }
  }

  lemma AllOfSnoc(js: seq<Json>, j: Json)
    ensures EachPlain(js + [j]) <==> EachPlain(js) && Plain(j)
  {
    hide Plain;
    assert (js + [j])[|js|] == j;
    forall i | 0 <= i < |js| ensures (js + [j])[i] == js[i] {}
  }

  lemma ItemPlain(n: Node)
    ensures Plain(ItemJson(n)) <==> Plain(NodeJson(n))
  {}

  lemma {:induction false} FieldsOkIff(fields: seq<Field>)
    ensures EachMemberPlain(FieldsJson(fields)) <==> FieldsOk(fields)
    decreases fields, 0
  {
    hide Plain, FieldOk, FieldJson;
    if fields != [] {
      var front, last := fields[..|fields| - 1], fields[|fields| - 1];
      FieldsOkIff(front);
      FieldOkIff(last);
      assert FieldsOk(fields) <==> FieldsOk(front) && FieldOk(last);
      var js := FieldsJson(front);
      if FieldJson(last).Some? {
        var m := Member(last.name, FieldJson(last).value);
        assert FieldsJson(fields) == js + [m];
        assert (js + [m])[|js|] == m && forall i :: 0 <= i < |js| ==> (js + [m])[i] == js[i];
      } else {
        assert FieldsJson(fields) == js;
      }
    }
  }

  lemma FieldOkIff(f: Field)
    ensures FieldOk(f) <==> FieldJson(f).None? || Plain(FieldJson(f).value)
    decreases f, 1
  {
    hide NodeJson, ItemsJson, FieldsJson;
    match f.value {
      case ListOf(items) =>
        ItemsOkIff(items);
        AllPlainIff(ItemsJson(items));
        PlainArray(ItemsJson(items));
        hide Plain, AllPlain, FieldOk;
      case NodeHere(n) => NodeOkIff(n);
      case NodeAt(n) =>
        NodeOkIff(n);
      case Part(part) =>
        FieldsOkIff(part);
        PlainMembersIff(FieldsJson(part));
        PlainObject(FieldsJson(part));
        hide Plain, PlainMembers, FieldOk;
      case _ =>
    }
  }

  // ----- the document

  const PG_VERSION_NUM: int := 130003

  function StmtsJson(stmts: seq<seq<Field>>): (r: seq<Json>) {
    if stmts == [] then [] else StmtsJson(stmts[..|stmts| - 1]) + [JObject(FieldsJson(stmts[|stmts| - 1]))]
  }

  function Document(stmts: seq<seq<Field>>): Json {
    JObject([Member("version", JNumber(PG_VERSION_NUM)), Member("stmts", JArray(StmtsJson(stmts)))])
  }

  lemma StmtOkIff(fields: seq<Field>)
    ensures Plain(JObject(FieldsJson(fields))) <==> FieldsOk(fields)
  {
    hide FieldsOk, FieldsJson;
    FieldsOkIff(fields);
    PlainMembersIff(FieldsJson(fields));
  }

  ghost predicate StmtsOk(stmts: seq<seq<Field>>) {
    forall i :: 0 <= i < |stmts| ==> FieldsOk(stmts[i])
  }

  lemma {:induction false} StmtsOkIff(stmts: seq<seq<Field>>)
    ensures EachPlain(StmtsJson(stmts)) <==> StmtsOk(stmts)
  {
    if stmts != [] {
      hide FieldsOk, FieldsJson, Plain, StmtsOk;
      var front, last := stmts[..|stmts| - 1], stmts[|stmts| - 1];
      StmtsOkIff(front);
      StmtOkIff(last);
      assert front + [last] == stmts;
      AllOfSnoc(StmtsJson(front), JObject(FieldsJson(last)));
      assert StmtsJson(stmts) == StmtsJson(front) + [JObject(FieldsJson(last))];
    }
  }

  lemma DocumentOkIff(stmts: seq<seq<Field>>)
    ensures Plain(Document(stmts)) <==> StmtsOk(stmts)
  {
    hide StmtsJson, StmtsOk, AllPlain, Plain, PlainMembers;
    StmtsOkIff(stmts);
    AllPlainIff(StmtsJson(stmts));
    PlainArray(StmtsJson(stmts));
    var a, b := Member("version", JNumber(PG_VERSION_NUM)), Member("stmts", JArray(StmtsJson(stmts)));
    TwoPlain(a, b);
    PlainNumber(PG_VERSION_NUM);
    PlainObject([a, b]);
  }

  lemma PlainNumber(n: int)
    ensures Plain(JNumber(n))
  {}

  lemma PlainObject(ms: seq<Member>)
    ensures Plain(JObject(ms)) <==> PlainMembers(ms)
  {}

  lemma TwoPlain(a: Member, b: Member)
    ensures PlainMembers([a, b]) <==> Plain(a.value) && Plain(b.value)
  {
    hide Plain;
    var ms := [a, b];
    PlainMembersIff(ms);
    assert ms[0] == a && ms[1] == b;
  }
}
